/** Configuration writes, clock writes and the read-back that verifies them: the writing half of inverter.go. */
module Inverter {
  import opened Basics
  import opened RegisterCodec
  import opened Registers

  const MAX_HOLDING_READ: int := 45
  const CLOCK_START: nat := 45
  const CLOCK_LENGTH: nat := 6

  /** registerMap: rows by key; the last row with a key wins. */
  function RegisterMap(table: seq<Definition>): (rows: map<string, Definition>)
  {
    if table == [] then map[]
    else
      var n := |table| - 1;
      RegisterMap(table[..n])[table[n].key := table[n]]
  }

  method BuildRegisterMap(table: seq<Definition>) returns (rows: map<string, Definition>)
    ensures rows == RegisterMap(table)
  {
    rows := map[];
    for index := 0 to |table|
      invariant rows == RegisterMap(table[..index])
    {
      assert table[..index + 1][..index] == table[..index];
      rows := rows[table[index].key := table[index]];
    }
    assert table[..|table|] == table;
  }

  // ---- Commands -----------------------------------------------------------------------------------------------

  /** The words a configuration command writes, or None when the command is rejected. Only the key and the value
      matter: neither the device nor any earlier command does. */
  function Accept(rows: map<string, Definition>, key: string, value: Value): Option<seq<Word>> {
    if key !in rows || rows[key].write.None? || rows[key].length < 1 then None
    else match rows[key].write.value(value)
      case None => None
      case Some(raw) =>
        match Encoded(raw, rows[key].kind, rows[key].length)
        case Err(_) => None
        case Ok(words) => Some(words)
  }

  /** The value reported for words of a row. */
  function Acknowledge(d: Definition, words: seq<Word>): Option<Value>
    requires words != []
  {
    match Decoded(words, d.kind)
    case Err(_) => None
    case Ok(raw) => d.read(raw)
  }

  /** How a write request fares: the device stores the words, or the request fails, perhaps after the words landed. */
  datatype Link = Stored | Failed(fatal: bool, landed: bool)

  datatype WriteError = Rejected | LinkFailure(fatal: bool) | Undecodable | Interrupted

  datatype Pending = Pending(start: nat, words: seq<Word>)

  datatype InverterState = InverterState(image: seq<Word>, pending: map<string, Pending>)

  lemma {:induction false} AcceptLength(rows: map<string, Definition>, key: string, value: Value)
    requires Accept(rows, key, value).Some?
    ensures key in rows && |Accept(rows, key, value).value| == rows[key].length >= 1
  {
  }

  /** A reading of the local clock. */
  datatype Moment = Moment(year: int, month: int, day: int, hour: int, minute: int, second: int, nanosecond: Nanosecond)

  type Nanosecond = n: nat | n < 1_000_000_000

  /** Year, month, day, hour, minute and second, each as a 16-bit word. */
  function ClockWords(m: Moment): (words: seq<Word>)
    ensures |words| == CLOCK_LENGTH
  {
    [m.year % 0x1_0000, m.month % 0x1_0000, m.day % 0x1_0000,
     m.hour % 0x1_0000, m.minute % 0x1_0000, m.second % 0x1_0000]
  }

  /** Every row of the map lies inside the register image. */
  ghost predicate InImage(rows: map<string, Definition>, size: nat) {
    forall k | k in rows :: rows[k].start >= 0 && rows[k].length >= 1 && rows[k].start + rows[k].length <= size
  }

  /** The state after a configuration write, and the acknowledged value or the error. */
  function WriteOutcome(rows: map<string, Definition>, s: InverterState, key: string, value: Value, link: Link)
    : (result: (InverterState, Result<Value, WriteError>))
    requires InImage(rows, |s.image|)
    ensures |result.0.image| == |s.image|
  {
    match Accept(rows, key, value)
    case None => (s, Err(Rejected))
    case Some(words) =>
      AcceptLength(rows, key, value);
      var image := Overlay(s.image, rows[key].start, words);
      match link
      case Failed(fatal, landed) => (s.(image := if landed then image else s.image), Err(LinkFailure(fatal)))
      case Stored =>
        var s' := InverterState(image, s.pending[key := Pending(rows[key].start, words)]);
        match Acknowledge(rows[key], words)
        case None => (s', Err(Undecodable))
        case Some(v) => (s', Ok(v))
  }

  /** Whether a command is rejected depends on its key and value alone; in particular a retry of a command that got as
      far as the link is never rejected. A write that fails on the link reports that failure and is not pending. */
  lemma {:induction false} RejectionIsStable(rows: map<string, Definition>, s: InverterState, key: string,
                                             value: Value, link: Link)
    requires InImage(rows, |s.image|)
    ensures WriteOutcome(rows, s, key, value, link).1 == Err(Rejected) <==> Accept(rows, key, value).None?
    ensures Accept(rows, key, value).None? ==> WriteOutcome(rows, s, key, value, link).0 == s
    ensures key !in rows || rows[key].write.None? ==> Accept(rows, key, value).None?
    ensures Accept(rows, key, value).Some? && link.Failed? ==>
              && WriteOutcome(rows, s, key, value, link).1 == Err(LinkFailure(link.fatal))
              && WriteOutcome(rows, s, key, value, link).0.pending == s.pending
  {
  }

  // ---- Read-back ----------------------------------------------------------------------------------------------

  datatype Readback = Verified | Mismatch | OutOfReach

  function Check(registers: seq<Word>, p: Pending): (r: Readback)
    ensures r.OutOfReach? <==> p.start + |p.words| > |registers|
    ensures !r.OutOfReach? ==> (r.Mismatch? <==> exists i | 0 <= i < |p.words| :: registers[p.start + i] != p.words[i])
  {
    if p.start + |p.words| > |registers| then OutOfReach
    else
      var current := registers[p.start..p.start + |p.words|];
      assert forall i | 0 <= i < |p.words| :: current[i] == registers[p.start + i];
      if current == p.words then Verified else Mismatch
  }

  function Reconciled(pending: map<string, Pending>, registers: seq<Word>): map<string, Readback> {
    map k | k in pending :: Check(registers, pending[k])
  }

  method EqualRegisters(left: seq<Word>, right: seq<Word>) returns (equal: bool)
    ensures equal <==> left == right
  {
    if |left| != |right| {
      return false;
    }
    for index := 0 to |left|
      invariant left[..index] == right[..index]
    {
      if left[index] != right[index] {
        return false;
      }
    }
    assert left == left[..|left|] && right == right[..|left|];
    equal := true;
  }

  /** A configuration read: the decoded table and, when it succeeds, the verdict on every pending write. */
  function ReadOutcome(table: seq<Definition>, windows: seq<Window>, pending: map<string, Pending>, reader: Reader)
    : (Result<map<string, Value>, ReadError>, map<string, Readback>)
    requires InBuffer(windows, MaxEnd(windows))
  {
    match ReadFrom(Zeros(MaxEnd(windows)), windows, 0, reader)
    case Err(e) => (Err(e), map[])
    case Ok(registers) =>
      match Collect(table, TableValues(registers, table))
      case Err(e) => (Err(e), map[])
      case Ok(info) => (Ok(info), Reconciled(pending, registers))
  }

  /** A configuration read succeeds exactly when every window is answered in full and every row of the table then
      decodes; only then does it report on pending writes, on all of them. */
  lemma {:induction false} ReadSucceedsExactly(table: seq<Definition>, windows: seq<Window>,
                                               pending: map<string, Pending>, reader: Reader)
    requires InBuffer(windows, MaxEnd(windows))
    ensures var (r, report) := ReadOutcome(table, windows, pending, reader);
      var read := ReadFrom(Zeros(MaxEnd(windows)), windows, 0, reader);
      && (read.Ok? <==> forall k | 0 <= k < |windows| ::
                          reader(k, windows[k]).Ok? && |reader(k, windows[k]).value| == windows[k].count)
      && (r.Ok? <==> read.Ok? && forall i | 0 <= i < |table| :: ValueAt(read.value, table[i]).Some?)
      && (read.Err? ==> r == Err(read.error))
      && report.Keys == if r.Ok? then pending.Keys else {}
  {
    var read := ReadFrom(Zeros(MaxEnd(windows)), windows, 0, reader);
    ReadSucceeds(Zeros(MaxEnd(windows)), windows, 0, reader);
    if read.Ok? {
      var first := CollectSucceeds(table, TableValues(read.value, table));
      assert forall i | 0 <= i < |table| :: TableValues(read.value, table)[i] == ValueAt(read.value, table[i]);
    }
  }

  class Inverter {
    const table: seq<Definition>
    const rows: map<string, Definition>
    const windows: seq<Window>
    ghost const span: Window
    var pendingReadbacks: map<string, Pending>
    ghost var image: seq<Word>  // what the device holds

    ghost predicate Valid()
      reads this
    {
      && WellFormed(table)
      && rows == RegisterMap(table) && InImage(rows, |image|)
      && Covers(span, table) && Tiles(windows, span.start, span.start + span.count)
      && InBuffer(windows, MaxEnd(windows))
    }

    ghost function State(): InverterState
      reads this
    {
      InverterState(image, pendingReadbacks)
    }

    constructor (table: seq<Definition>, ghost image: seq<Word>)
      requires WellFormed(table) && InImage(RegisterMap(table), |image|)
      ensures Valid() && this.table == table && State() == InverterState(image, map[])
    {
      var rows := BuildRegisterMap(table);
      var windows, span := BuildRegisterWindows(table, MAX_HOLDING_READ);
      SpanIsFilled(table, span, windows);
      this.table, this.rows, this.windows, this.span := table, rows, windows, span;
      this.pendingReadbacks, this.image := map[], image;
    }

    method WriteConfig(key: string, value: Value, link: Link) returns (r: Result<Value, WriteError>)
      requires Valid()
      modifies this
      ensures Valid()
      ensures (State(), r) == WriteOutcome(rows, old(State()), key, value, link)
    {
      if key !in rows || rows[key].write.None? {
        return Err(Rejected);
      }
      var d := rows[key];
      var processed := d.write.value(value);
      if processed.None? {
        return Err(Rejected);
      }
      var encoded := EncodeRawValue(processed.value, d.kind, d.length);
      if encoded.Err? {
        return Err(Rejected);
      }
      var words := encoded.value;
      AcceptLength(rows, key, value);
      if link.Failed? {
        if link.landed {
          image := Overlay(image, d.start, words);
        }
        return Err(LinkFailure(link.fatal));
      }
      image := Overlay(image, d.start, words);
      pendingReadbacks := pendingReadbacks[key := Pending(d.start, words)];
      assert words[0..0 + d.length] == words;
      var raw := DecodeRegisterValue(words, 0, d.length, d.kind);
      if raw.Err? {
        return Err(Undecodable);
      }
      var value' := d.read(raw.value);
      r := if value'.None? then Err(Undecodable) else Ok(value'.value);
    }

    /** SyncTime writes the time at the start of a second: now if a second starts now, otherwise the time read after
        sleeping to the next one. The pending read-backs stay. */
    method SyncTime(now: Moment, slept: bool, later: Moment, link: Link) returns (error: Option<WriteError>)
      requires Valid() && CLOCK_START + CLOCK_LENGTH <= |image|
      modifies this
      ensures Valid() && pendingReadbacks == old(pendingReadbacks)
      ensures error == if now.nanosecond != 0 && !slept then Some(Interrupted)
                       else if link.Failed? then Some(LinkFailure(link.fatal)) else None
      ensures image == if error != Some(Interrupted) && (link.Stored? || link.landed)
                       then Overlay(old(image), CLOCK_START, ClockWords(if now.nanosecond == 0 then now else later))
                       else old(image)
      ensures error != Some(Interrupted) && (link.Stored? || link.landed) ==>
                var m := if now.nanosecond == 0 then now else later;
                && image[45] == m.year % 0x1_0000 && image[46] == m.month % 0x1_0000 && image[47] == m.day % 0x1_0000
                && image[48] == m.hour % 0x1_0000 && image[49] == m.minute % 0x1_0000
                && image[50] == m.second % 0x1_0000
                && image[..45] == old(image)[..45] && image[51..] == old(image)[51..]
    {
      var moment := now;
      var wait := 1_000_000_000 - now.nanosecond;
      if 0 < wait < 1_000_000_000 {
        if !slept {
          return Some(Interrupted);
        }
        moment := later;
      }
      if link.Stored? || link.landed {
        image := Overlay(image, CLOCK_START, ClockWords(moment));
      }
      error := if link.Stored? then None else Some(LinkFailure(link.fatal));
    }

    /** Pending read-backs are forgotten whether or not the read succeeds. */
    method ReadConfig(reader: Reader)
      returns (r: Result<map<string, Value>, ReadError>, report: map<string, Readback>)
      requires Valid()
      modifies this
      ensures Valid() && image == old(image) && pendingReadbacks == map[]
      ensures (r, report) == ReadOutcome(table, windows, old(pendingReadbacks), reader)
    {
      report := map[];
      var pending := pendingReadbacks;
      pendingReadbacks := map[];
      var registers := ReadRegisterWindows(windows, reader);
      if registers.Err? {
        return Err(registers.error), report;
      }
      r := DecodeRegisterTable(registers.value, table);
      if r.Ok? {
        report := ReconcilePendingReadback(pending, registers.value);
      }
    }
  }

  /** reconcilePendingReadback: one comparison per pending key, in whatever order the map yields them. */
  method ReconcilePendingReadback(pending: map<string, Pending>, registers: seq<Word>)
    returns (report: map<string, Readback>)
    ensures report == Reconciled(pending, registers)
  {
    report := map[];
    var keys := pending.Keys;
    while keys != {}
      invariant keys <= pending.Keys && report.Keys == pending.Keys - keys
      invariant forall k | k in report :: report[k] == Check(registers, pending[k])
      decreases |keys|
    {
      var key :| key in keys;
      keys := keys - {key};
      var p := pending[key];
      if p.start + |p.words| > |registers| {
        report := report[key := OutOfReach];
      } else {
        var equal := EqualRegisters(registers[p.start..p.start + |p.words|], p.words);
        report := report[key := if equal then Verified else Mismatch];
      }
    }
  }

  // ---- Register layout ----------------------------------------------------------------------------------------

  /** No two rows share a register, and none touches the clock. */
  ghost predicate Apart(table: seq<Definition>) {
    && (forall i, j | 0 <= i < j < |table| :: table[i].start + table[i].length <= table[j].start)
    && (forall i | 0 <= i < |table| ::
          table[i].start + table[i].length <= CLOCK_START || CLOCK_START + CLOCK_LENGTH <= table[i].start)
  }

  const HOLDING_ROWS: nat := 76

  /** Where row i of the holding table starts, in table order. */
  function RowStart(i: nat): nat
    requires i < HOLDING_ROWS
  {
    if i < 9 then i
    else if i < 11 then 9 + 3 * (i - 9)
    else if i < 19 then 15 + (i - 11)
    else if i == 19 then 23
    else if i < 36 then 28 + (i - 20)
    else if i < 43 then 51 + (i - 36)
    else if i < 47 then 67 + (i - 43)
    else if i == 47 then 73
    else if i == 48 then 75
    else if i < 51 then 76 + 2 * (i - 49)
    else if i < 63 then 80 + (i - 51)
    else 95 + (i - 63)
  }

  function RowLength(i: nat): nat {
    if i == 9 || i == 10 then 3 else if i == 19 then 5 else if i == 49 || i == 50 then 2 else 1
  }

  ghost predicate HasLayout(table: seq<Definition>) {
    && |table| == HOLDING_ROWS
    && forall i | 0 <= i < |table| :: table[i].start == RowStart(i) && table[i].length == RowLength(i)
  }

  /** The holding table is well formed, its rows are apart, and 108 registers hold them all. */
  lemma {:induction false} HoldingTableIsApart(table: seq<Definition>)
    requires HasLayout(table)
    ensures WellFormed(table) && Apart(table)
    ensures forall i | 0 <= i < |table| :: table[i].start + table[i].length <= 108
  {
  }

  /** A key's row in the map is a row of the table, and its value is the one the decoded table reports. */
  lemma {:induction false} RowOfKey(table: seq<Definition>, values: seq<Option<Value>>, key: string) returns (i: nat)
    requires |values| == |table| && key in RegisterMap(table)
    ensures i < |table| && RegisterMap(table)[key] == table[i] && table[i].key == key
    ensures Collect(table, values).Ok? ==>
              var info := Collect(table, values).value; key in info && Some(info[key]) == values[i]
  {
    var n := |table| - 1;
    if table[n].key == key {
      i := n;
    } else {
      i := RowOfKey(table[..n], values[..n], key);
    }
  }

  ghost function SomeValues(table: seq<Definition>): (values: seq<Option<Value>>)
    ensures |values| == |table|
  {
    seq(|table|, _ => None)
  }

  /** Different keys have ranges that do not meet, and no key's range meets the clock. */
  ghost predicate KeysApart(rows: map<string, Definition>) {
    && (forall a, b | a in rows && b in rows && a != b ::
          rows[a].start + rows[a].length <= rows[b].start || rows[b].start + rows[b].length <= rows[a].start)
    && (forall a | a in rows ::
          rows[a].start + rows[a].length <= CLOCK_START || CLOCK_START + CLOCK_LENGTH <= rows[a].start)
  }

  lemma {:induction false} ApartTableApartKeys(table: seq<Definition>, size: nat)
    requires WellFormed(table) && Apart(table)
    requires forall i | 0 <= i < |table| :: table[i].start + table[i].length <= size
    ensures KeysApart(RegisterMap(table)) && InImage(RegisterMap(table), size)
  {
    var rows := RegisterMap(table);
    forall a | a in rows
      ensures rows[a].start >= 0 && rows[a].length >= 1 && rows[a].start + rows[a].length <= size
      ensures rows[a].start + rows[a].length <= CLOCK_START || CLOCK_START + CLOCK_LENGTH <= rows[a].start
    {
      var i := RowOfKey(table, SomeValues(table), a);
    }
    forall a, b | a in rows && b in rows && a != b
      ensures rows[a].start + rows[a].length <= rows[b].start || rows[b].start + rows[b].length <= rows[a].start
    {
      var i := RowOfKey(table, SomeValues(table), a);
      var j := RowOfKey(table, SomeValues(table), b);
    }
  }

  // ---- Read-back is exact -------------------------------------------------------------------------------------

  /** The words of a row in an image. */
  function Slice(rows: map<string, Definition>, image: seq<Word>, key: string): seq<Word>
    requires InImage(rows, |image|) && key in rows
  {
    image[rows[key].start..rows[key].start + rows[key].length]
  }

  /** A write that is stored leaves its words in its row, to be verified there, and every other register as it was; it
      is acknowledged with the value they read as, if they read as any. */
  lemma {:induction false} WriteReplacesRow(rows: map<string, Definition>, s: InverterState, key: string, value: Value)
    requires InImage(rows, |s.image|) && Accept(rows, key, value).Some?
    ensures var (s', r) := WriteOutcome(rows, s, key, value, Stored);
      && key in rows && rows[key].length >= 1
      && r == (match Acknowledge(rows[key], Slice(rows, s'.image, key))
               case Some(v) => Ok(v)
               case None => Err(Undecodable))
      && Slice(rows, s'.image, key) == Accept(rows, key, value).value
      && s'.pending == s.pending[key := Pending(rows[key].start, Slice(rows, s'.image, key))]
      && forall a | 0 <= a < |s.image| && !(rows[key].start <= a < rows[key].start + rows[key].length) ::
           s'.image[a] == s.image[a]
  {
    AcceptLength(rows, key, value);
  }

  /** Writing one row leaves the words of every other row alone. */
  lemma {:induction false} SliceAfterOverlay(rows: map<string, Definition>, image: seq<Word>, key: string,
                                             words: seq<Word>, other: string)
    requires InImage(rows, |image|) && KeysApart(rows) && key in rows && other in rows && |words| == rows[key].length
    ensures Slice(rows, Overlay(image, rows[key].start, words), other)
         == if other == key then words else Slice(rows, image, other)
  {
  }

  lemma {:induction false} SliceAfterSync(rows: map<string, Definition>, image: seq<Word>, words: seq<Word>,
                                          key: string)
    requires InImage(rows, |image|) && KeysApart(rows) && key in rows
    requires |words| == CLOCK_LENGTH && CLOCK_START + CLOCK_LENGTH <= |image|
    ensures Slice(rows, Overlay(image, CLOCK_START, words), key) == Slice(rows, image, key)
  {
  }

  /** The image after clock writes that reached the device, one for each attempt that did. */
  function ClockWritten(image: seq<Word>, moments: seq<Moment>): (image': seq<Word>)
    requires CLOCK_START + CLOCK_LENGTH <= |image|
    ensures |image'| == |image|
  {
    if moments == [] then image
    else
      var n := |moments| - 1;
      Overlay(ClockWritten(image, moments[..n]), CLOCK_START, ClockWords(moments[n]))
  }

  /** Only the last of them shows, and no row does. */
  lemma {:induction false} ClockShowsLast(rows: map<string, Definition>, image: seq<Word>, moments: seq<Moment>)
    requires InImage(rows, |image|) && KeysApart(rows) && CLOCK_START + CLOCK_LENGTH <= |image|
    ensures moments != [] ==>
              ClockWritten(image, moments) == Overlay(image, CLOCK_START, ClockWords(moments[|moments| - 1]))
    ensures forall k | k in rows :: Slice(rows, ClockWritten(image, moments), k) == Slice(rows, image, k)
  {
    if moments != [] {
      var n := |moments| - 1;
      ClockShowsLast(rows, image, moments[..n]);
      forall k | k in rows ensures Slice(rows, ClockWritten(image, moments), k) == Slice(rows, image, k) {
        SliceAfterSync(rows, ClockWritten(image, moments[..n]), ClockWords(moments[n]), k);
      }
    }
  }

  datatype Op = WriteOp(key: string, value: Value, link: Link) | SyncOp(words: seq<Word>, link: Link)

  /** `acknowledged` is the last value WriteConfig returned for each key; a key is in doubt from a write of it that
      failed but reached the device until the next one that is acknowledged. */
  datatype History = History(state: InverterState, acknowledged: map<string, Value>, inDoubt: set<string>)

  /** The operation is one the device can carry out, and a stored write is acknowledged or rejected. */
  ghost predicate Settles(rows: map<string, Definition>, op: Op, size: nat) {
    match op
    case WriteOp(key, value, link) =>
      link.Stored? && Accept(rows, key, value).Some? ==>
        key in rows && Accept(rows, key, value).value != []
        && Acknowledge(rows[key], Accept(rows, key, value).value).Some?
    case SyncOp(words, _) => |words| == CLOCK_LENGTH && CLOCK_START + CLOCK_LENGTH <= size
  }

  predicate Reached(link: Link) {
    link.Stored? || link.landed
  }

  ghost function Perform(rows: map<string, Definition>, h: History, op: Op): (h': History)
    requires InImage(rows, |h.state.image|) && Settles(rows, op, |h.state.image|)
    ensures |h'.state.image| == |h.state.image|
  {
    match op
    case SyncOp(words, link) =>
      if Reached(link) then h.(state := h.state.(image := Overlay(h.state.image, CLOCK_START, words))) else h
    case WriteOp(key, value, link) =>
      var (s, r) := WriteOutcome(rows, h.state, key, value, link);
      if r.Ok? then History(s, h.acknowledged[key := r.value], h.inDoubt - {key})
      else History(s, h.acknowledged, if r.error.LinkFailure? && Reached(link) then h.inDoubt + {key} else h.inDoubt)
  }

  ghost function PerformAll(rows: map<string, Definition>, image: seq<Word>, ops: seq<Op>): (h: History)
    requires InImage(rows, |image|) && forall i | 0 <= i < |ops| :: Settles(rows, ops[i], |image|)
    ensures |h.state.image| == |image|
  {
    if ops == [] then History(InverterState(image, map[]), map[], {})
    else Perform(rows, PerformAll(rows, image, ops[..|ops| - 1]), ops[|ops| - 1])
  }

  /** A pending key that is not in doubt has its words on the device, and they decode to the value last
      acknowledged. */
  ghost predicate Consistent(rows: map<string, Definition>, h: History)
    requires InImage(rows, |h.state.image|)
  {
    && h.acknowledged.Keys == h.state.pending.Keys <= rows.Keys
    && forall k | k in h.state.pending && k !in h.inDoubt ::
         && h.state.pending[k] == Pending(rows[k].start, Slice(rows, h.state.image, k))
         && Acknowledge(rows[k], Slice(rows, h.state.image, k)) == Some(h.acknowledged[k])
  }

  lemma {:induction false} PerformIsConsistent(rows: map<string, Definition>, h: History, op: Op)
    requires InImage(rows, |h.state.image|) && KeysApart(rows) && Consistent(rows, h)
    requires Settles(rows, op, |h.state.image|)
    ensures Consistent(rows, Perform(rows, h, op))
  {
    if op.SyncOp? {
      forall k | k in h.state.pending
        ensures Slice(rows, Overlay(h.state.image, CLOCK_START, op.words), k) == Slice(rows, h.state.image, k)
      {
        SliceAfterSync(rows, h.state.image, op.words, k);
      }
    } else if Accept(rows, op.key, op.value).Some? {
      if op.link.Stored? {
        WriteIsConsistent(rows, h, op.key, op.value);
      } else {
        FailureIsConsistent(rows, h, op.key, op.value, op.link);
      }
    }
  }

  lemma {:induction false} WriteIsConsistent(rows: map<string, Definition>, h: History, key: string, value: Value)
    requires InImage(rows, |h.state.image|) && KeysApart(rows) && Consistent(rows, h)
    requires Settles(rows, WriteOp(key, value, Stored), |h.state.image|) && Accept(rows, key, value).Some?
    ensures Consistent(rows, Perform(rows, h, WriteOp(key, value, Stored)))
  {
    AcceptLength(rows, key, value);
    var words := Accept(rows, key, value).value;
    var h' := Perform(rows, h, WriteOp(key, value, Stored));
    forall k | k in h'.state.pending
      ensures Slice(rows, h'.state.image, k) == if k == key then words else Slice(rows, h.state.image, k)
    {
      SliceAfterOverlay(rows, h.state.image, key, words, k);
    }
  }

  lemma {:induction false} FailureIsConsistent(rows: map<string, Definition>, h: History, key: string, value: Value,
                                               link: Link)
    requires InImage(rows, |h.state.image|) && KeysApart(rows) && Consistent(rows, h)
    requires link.Failed? && Accept(rows, key, value).Some?
    ensures Consistent(rows, Perform(rows, h, WriteOp(key, value, link)))
  {
    AcceptLength(rows, key, value);
    var words := Accept(rows, key, value).value;
    forall k | k in h.state.pending && k != key
      ensures Slice(rows, Overlay(h.state.image, rows[key].start, words), k) == Slice(rows, h.state.image, k)
    {
      SliceAfterOverlay(rows, h.state.image, key, words, k);
    }
  }

  lemma {:induction false} RunIsConsistent(rows: map<string, Definition>, image: seq<Word>, ops: seq<Op>)
    requires InImage(rows, |image|) && KeysApart(rows)
    requires forall i | 0 <= i < |ops| :: Settles(rows, ops[i], |image|)
    ensures Consistent(rows, PerformAll(rows, image, ops))
  {
    if ops != [] {
      RunIsConsistent(rows, image, ops[..|ops| - 1]);
      PerformIsConsistent(rows, PerformAll(rows, image, ops[..|ops| - 1]), ops[|ops| - 1]);
    }
  }

  ghost function Held(image: seq<Word>): int -> Word {
    a => if 0 <= a < |image| then image[a] else 0
  }

  lemma {:induction false} ExtractIsSlice(rows: map<string, Definition>, image: seq<Word>, key: string)
    requires InImage(rows, |image|) && key in rows
    ensures Extract(Held(image), rows[key].start, rows[key].length) == Slice(rows, image, key)
  {
  }

  /** After any sequence of writes and clock writes, failed ones included, on a device that stores what reaches it,
      the next successful configuration read verifies every pending key that is not in doubt and reports exactly the
      value the last acknowledged write of that key returned. */
  lemma {:induction false} ReadbackIsExact(table: seq<Definition>, span: Window, windows: seq<Window>,
                                           image: seq<Word>, ops: seq<Op>, reader: Reader)
    requires WellFormed(table) && Apart(table) && Covers(span, table)
    requires forall i | 0 <= i < |table| :: table[i].start + table[i].length <= |image|
    requires Tiles(windows, span.start, span.start + span.count) && InBuffer(windows, MaxEnd(windows))
    requires InImage(RegisterMap(table), |image|)
    requires forall i | 0 <= i < |ops| :: Settles(RegisterMap(table), ops[i], |image|)
    requires Honest(reader, Held(PerformAll(RegisterMap(table), image, ops).state.image))
    ensures ReadsBack(table, windows, PerformAll(RegisterMap(table), image, ops), reader)
  {
    ApartTableApartKeys(table, |image|);
    RunIsConsistent(RegisterMap(table), image, ops);
    ConsistentReadsBack(table, span, windows, PerformAll(RegisterMap(table), image, ops), reader);
  }

  /** A configuration read, if it succeeds, reports on every acknowledged key, and on one not in doubt that its
      words are there and that its value is the one acknowledged. */
  ghost predicate ReadsBack(table: seq<Definition>, windows: seq<Window>, h: History, reader: Reader)
    requires InBuffer(windows, MaxEnd(windows))
  {
    var (r, report) := ReadOutcome(table, windows, h.state.pending, reader);
    r.Ok? ==>
      && report.Keys == h.acknowledged.Keys
      && forall k | k in h.acknowledged && k !in h.inDoubt ::
           report[k] == Verified && k in r.value && r.value[k] == h.acknowledged[k]
  }

  lemma {:induction false} ConsistentReadsBack(table: seq<Definition>, span: Window, windows: seq<Window>, h: History,
                                               reader: Reader)
    requires WellFormed(table) && Covers(span, table)
    requires Tiles(windows, span.start, span.start + span.count) && InBuffer(windows, MaxEnd(windows))
    requires InImage(RegisterMap(table), |h.state.image|) && Consistent(RegisterMap(table), h)
    requires Honest(reader, Held(h.state.image))
    ensures ReadsBack(table, windows, h, reader)
  {
    forall k | k in h.acknowledged && k !in h.inDoubt && ReadOutcome(table, windows, h.state.pending, reader).0.Ok?
      ensures ReadbackOf(table, windows, h.state, reader, k) == (Verified, Some(h.acknowledged[k]))
    {
      KeyReadsBack(table, span, windows, h.state, reader, k);
    }
  }

  /** What a successful configuration read says about one key. */
  ghost function ReadbackOf(table: seq<Definition>, windows: seq<Window>, s: InverterState, reader: Reader,
                            key: string): (Readback, Option<Value>)
    requires InBuffer(windows, MaxEnd(windows)) && key in s.pending
    requires ReadOutcome(table, windows, s.pending, reader).0.Ok?
  {
    var (r, report) := ReadOutcome(table, windows, s.pending, reader);
    (report[key], if key in r.value then Some(r.value[key]) else None)
  }

  lemma {:induction false} KeyReadsBack(table: seq<Definition>, span: Window, windows: seq<Window>, s: InverterState,
                                        reader: Reader, key: string)
    requires WellFormed(table) && Covers(span, table)
    requires Tiles(windows, span.start, span.start + span.count) && InBuffer(windows, MaxEnd(windows))
    requires InImage(RegisterMap(table), |s.image|) && Honest(reader, Held(s.image))
    requires key in RegisterMap(table) && key in s.pending
    requires s.pending[key] == Pending(RegisterMap(table)[key].start, Slice(RegisterMap(table), s.image, key))
    requires ReadOutcome(table, windows, s.pending, reader).0.Ok?
    ensures ReadbackOf(table, windows, s, reader, key)
         == (Verified, Acknowledge(RegisterMap(table)[key], Slice(RegisterMap(table), s.image, key)))
  {
    var device := Held(s.image);
    ChunkedReadIsDirect(table, span, windows, reader, device);
    SpanIsFilled(table, span, windows);
    var buffer := ReadFrom(Zeros(MaxEnd(windows)), windows, 0, reader).value;
    PendingIsChecked(table, span, buffer, s, key);
    var i := RowOfKey(table, DirectValues(device, table), key);
    ExtractIsSlice(RegisterMap(table), s.image, key);
    assert DirectValues(device, table)[i] == DirectValue(device, table[i]);
  }

  lemma {:induction false} PendingIsChecked(table: seq<Definition>, span: Window, buffer: seq<Word>, s: InverterState,
                                            key: string)
    requires Covers(span, table) && |buffer| == span.start + span.count && span.start >= 0
    requires InImage(RegisterMap(table), |s.image|) && key in RegisterMap(table) && key in s.pending
    requires s.pending[key] == Pending(RegisterMap(table)[key].start, Slice(RegisterMap(table), s.image, key))
    requires forall a | span.start <= a < |buffer| :: buffer[a] == Held(s.image)(a)
    ensures Check(buffer, s.pending[key]) == Verified
  {
    var i := RowOfKey(table, SomeValues(table), key);
    var p := s.pending[key];
    forall k | 0 <= k < |p.words| ensures buffer[p.start + k] == p.words[k] {
      assert buffer[p.start + k] == Held(s.image)(p.start + k);
    }
  }

  /** On an arbitrary device, a pending key is flagged exactly when some word of its range differs. */
  lemma {:induction false} FlaggedIffDifferent(table: seq<Definition>, span: Window, windows: seq<Window>,
                                               pending: map<string, Pending>, reader: Reader, device: int -> Word)
    requires WellFormed(table) && Covers(span, table)
    requires Tiles(windows, span.start, span.start + span.count) && InBuffer(windows, MaxEnd(windows))
    requires Honest(reader, device)
    requires forall k | k in pending ::
      && k in RegisterMap(table)
      && pending[k].start == RegisterMap(table)[k].start && |pending[k].words| == RegisterMap(table)[k].length
    ensures var (r, report) := ReadOutcome(table, windows, pending, reader);
      r.Ok? ==> report.Keys == pending.Keys && forall k | k in pending ::
        && (report[k] == Mismatch <==> exists i | 0 <= i < |pending[k].words| ::
                                         device(pending[k].start + i) != pending[k].words[i])
        && (report[k] == Verified <==> forall i | 0 <= i < |pending[k].words| ::
                                         device(pending[k].start + i) == pending[k].words[i])
  {
    ChunkedReadIsDirect(table, span, windows, reader, device);
    SpanIsFilled(table, span, windows);
    var buffer := ReadFrom(Zeros(MaxEnd(windows)), windows, 0, reader).value;
    forall k | k in pending
      ensures Check(buffer, pending[k]) == DeviceCheck(device, pending[k])
    {
      var row := RowOfKey(table, SomeValues(table), k);
      CheckIsDeviceCheck(span, buffer, device, pending[k]);
    }
  }

  /** The verdict a direct look at the device would give. */
  ghost function DeviceCheck(device: int -> Word, p: Pending): (r: Readback)
    ensures r == Mismatch <==> exists i | 0 <= i < |p.words| :: device(p.start + i) != p.words[i]
    ensures r == Verified <==> forall i | 0 <= i < |p.words| :: device(p.start + i) == p.words[i]
  {
    if forall i | 0 <= i < |p.words| :: device(p.start + i) == p.words[i] then Verified else Mismatch
  }

  lemma {:induction false} CheckIsDeviceCheck(span: Window, buffer: seq<Word>, device: int -> Word, p: Pending)
    requires 0 <= span.start <= p.start && p.start + |p.words| <= |buffer|
    requires forall a | span.start <= a < |buffer| :: buffer[a] == device(a)
    ensures Check(buffer, p) == DeviceCheck(device, p)
  {
    forall i | 0 <= i < |p.words| ensures (buffer[p.start + i] == p.words[i]) == (device(p.start + i) == p.words[i]) {
      assert buffer[p.start + i] == device(p.start + i);
    }
  }
}
