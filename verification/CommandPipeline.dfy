/** The configuration command pipeline of polling.go: a bounded queue, coalesced to the last command per key, filtered
    against the writes still pending verification, and written one by one. The reference it is compared with executes
    every queued command in arrival order. */
module CommandPipeline {
  import opened Basics
  import opened Registers
  import opened Inverter

  datatype Command = Command(key: string, value: Value)

  // ---- Coalescing ---------------------------------------------------------------------------------------------

  /** The keys of the commands, in order of first appearance. */
  function FirstKeys(cmds: seq<Command>): seq<string> {
    if cmds == [] then []
    else
      var keys := FirstKeys(cmds[..|cmds| - 1]);
      var key := cmds[|cmds| - 1].key;
      if key in keys then keys else keys + [key]
  }

  /** The last command with each key. */
  function LatestByKey(cmds: seq<Command>): map<string, Command> {
    if cmds == [] then map[]
    else LatestByKey(cmds[..|cmds| - 1])[cmds[|cmds| - 1].key := cmds[|cmds| - 1]]
  }

  lemma {:induction false} SameKeys(cmds: seq<Command>)
    ensures forall k :: k in FirstKeys(cmds) <==> k in LatestByKey(cmds)
  {
    if cmds != [] {
      SameKeys(cmds[..|cmds| - 1]);
    }
  }

  function Coalesce(cmds: seq<Command>): (batch: seq<Command>)
    ensures |batch| == |FirstKeys(cmds)|
  {
    SameKeys(cmds);
    seq(|FirstKeys(cmds)|, i requires 0 <= i < |FirstKeys(cmds)| => LatestByKey(cmds)[FirstKeys(cmds)[i]])
  }

  ghost predicate DistinctKeys(batch: seq<Command>) {
    forall i, j | 0 <= i < j < |batch| :: batch[i].key != batch[j].key
  }

  ghost predicate IsLast(cmds: seq<Command>, j: nat) {
    j < |cmds| && forall m | j < m < |cmds| :: cmds[m].key != cmds[j].key
  }

  ghost predicate IsFirst(cmds: seq<Command>, j: nat) {
    j < |cmds| && forall m | 0 <= m < j :: cmds[m].key != cmds[j].key
  }

  lemma {:induction false} LatestIsLast(cmds: seq<Command>, key: string) returns (j: nat)
    requires key in LatestByKey(cmds)
    ensures IsLast(cmds, j) && cmds[j].key == key && LatestByKey(cmds)[key] == cmds[j]
  {
    var n := |cmds| - 1;
    if cmds[n].key == key {
      j := n;
    } else {
      j := LatestIsLast(cmds[..n], key);
    }
  }

  lemma {:induction false} LastIsLatest(cmds: seq<Command>, j: nat)
    requires IsLast(cmds, j)
    ensures cmds[j].key in LatestByKey(cmds) && LatestByKey(cmds)[cmds[j].key] == cmds[j]
  {
    var n := |cmds| - 1;
    if j < n {
      assert cmds[..n][j] == cmds[j];
      LastIsLatest(cmds[..n], j);
    }
  }

  /** Where the i-th distinct key first appears. */
  lemma {:induction false} FirstKeyAt(cmds: seq<Command>, i: nat) returns (j: nat)
    requires i < |FirstKeys(cmds)|
    ensures IsFirst(cmds, j) && cmds[j].key == FirstKeys(cmds)[i]
  {
    var n := |cmds| - 1;
    if i < |FirstKeys(cmds[..n])| {
      j := FirstKeyAt(cmds[..n], i);
    } else {
      j := n;
      SameKeys(cmds[..n]);
      forall m | 0 <= m < n ensures cmds[m].key != cmds[n].key {
        EveryKeyAppears(cmds[..n], m);
      }
    }
  }

  lemma {:induction false} EveryKeyAppears(cmds: seq<Command>, m: nat)
    requires m < |cmds|
    ensures cmds[m].key in FirstKeys(cmds)
  {
    if m < |cmds| - 1 {
      assert cmds[..|cmds| - 1][m] == cmds[m];
      EveryKeyAppears(cmds[..|cmds| - 1], m);
    }
  }

  lemma {:induction false} KeysInOrder(cmds: seq<Command>, a: nat, b: nat, i: nat, j: nat)
    requires i < j < |FirstKeys(cmds)|
    requires IsFirst(cmds, a) && cmds[a].key == FirstKeys(cmds)[i]
    requires IsFirst(cmds, b) && cmds[b].key == FirstKeys(cmds)[j]
    ensures a < b
  {
    var n := |cmds| - 1;
    var c := FirstKeyAt(cmds[..n], i);
    FirstOfPrefix(cmds, n, c);
    if j < |FirstKeys(cmds[..n])| {
      var d := FirstKeyAt(cmds[..n], j);
      FirstOfPrefix(cmds, n, d);
      KeysInOrder(cmds[..n], c, d, i, j);
    } else if b < n {
      EveryKeyAppears(cmds[..n], b);
    }
  }

  lemma {:induction false} FirstOfPrefix(cmds: seq<Command>, n: nat, j: nat)
    requires n <= |cmds| && IsFirst(cmds[..n], j)
    ensures IsFirst(cmds, j) && cmds[..n][j] == cmds[j]
  {
    assert forall m | 0 <= m <= j :: cmds[..n][m] == cmds[m];
  }

  lemma {:induction false} FirstKeysDistinct(cmds: seq<Command>)
    ensures forall i, j | 0 <= i < j < |FirstKeys(cmds)| :: FirstKeys(cmds)[i] != FirstKeys(cmds)[j]
  {
    if cmds != [] {
      FirstKeysDistinct(cmds[..|cmds| - 1]);
    }
  }

  lemma {:induction false} CoalesceAt(cmds: seq<Command>, i: nat) returns (j: nat)
    requires i < |Coalesce(cmds)|
    ensures Coalesce(cmds)[i].key == FirstKeys(cmds)[i]
    ensures IsLast(cmds, j) && Coalesce(cmds)[i] == cmds[j]
  {
    SameKeys(cmds);
    j := LatestIsLast(cmds, FirstKeys(cmds)[i]);
  }

  lemma {:induction false} CoalesceDistinct(cmds: seq<Command>)
    ensures DistinctKeys(Coalesce(cmds))
  {
    FirstKeysDistinct(cmds);
    forall i, j | 0 <= i < j < |Coalesce(cmds)| ensures Coalesce(cmds)[i].key != Coalesce(cmds)[j].key {
      var a := CoalesceAt(cmds, i);
      var b := CoalesceAt(cmds, j);
    }
  }

  ghost predicate HasKey(batch: seq<Command>, key: string) {
    exists i | 0 <= i < |batch| :: batch[i].key == key
  }

  ghost predicate IsSomeLast(cmds: seq<Command>, c: Command) {
    exists j: nat | IsLast(cmds, j) :: c == cmds[j]
  }

  /** A coalesced batch has one command for every key that was queued and no other: the last one queued. */
  lemma {:induction false} CoalesceKeepsLast(cmds: seq<Command>)
    ensures DistinctKeys(Coalesce(cmds))
    ensures forall m | 0 <= m < |cmds| :: HasKey(Coalesce(cmds), cmds[m].key)
    ensures forall i | 0 <= i < |Coalesce(cmds)| :: IsSomeLast(cmds, Coalesce(cmds)[i])
  {
    CoalesceDistinct(cmds);
    forall i | 0 <= i < |Coalesce(cmds)| ensures IsSomeLast(cmds, Coalesce(cmds)[i]) {
      var j := CoalesceAt(cmds, i);
    }
    forall m | 0 <= m < |cmds| ensures HasKey(Coalesce(cmds), cmds[m].key) {
      EveryKeyAppears(cmds, m);
      var i :| 0 <= i < |FirstKeys(cmds)| && FirstKeys(cmds)[i] == cmds[m].key;
      var j := CoalesceAt(cmds, i);
    }
  }

  /** The commands of a coalesced batch stand in the order in which their keys were first queued. */
  lemma {:induction false} CoalesceKeepsOrder(cmds: seq<Command>, i: nat, j: nat, a: nat, b: nat)
    requires i < j < |Coalesce(cmds)|
    requires IsFirst(cmds, a) && cmds[a].key == Coalesce(cmds)[i].key
    requires IsFirst(cmds, b) && cmds[b].key == Coalesce(cmds)[j].key
    ensures a < b
  {
    var c := CoalesceAt(cmds, i);
    var d := CoalesceAt(cmds, j);
    KeysInOrder(cmds, a, b, i, j);
  }

  // ---- Draining -----------------------------------------------------------------------------------------------

  /** What WriteConfig answers, as far as the drain can tell. */
  datatype Reply = Acknowledged | Refused | Broken

  type Writer = (nat, Command) -> Reply

  datatype Drained = Drained(issued: seq<Command>, pending: map<string, Value>, wrote: bool, broken: bool)

  predicate IsPending(pending: map<string, Value>, c: Command) {
    c.key in pending && pending[c.key] == c.value
  }

  /** One command: skipped when the same write is still pending, dropped when rejected, remembered when written. */
  function DrainOne(d: Drained, c: Command, reply: Reply): Drained {
    if d.broken || IsPending(d.pending, c) then d
    else match reply
      case Acknowledged => Drained(d.issued + [c], d.pending[c.key := c.value], true, false)
      case Refused => d
      case Broken => d.(broken := true)
  }

  function Drain(batch: seq<Command>, pending: map<string, Value>, writer: Writer): Drained {
    if batch == [] then Drained([], pending, false, false)
    else
      var n := |batch| - 1;
      DrainOne(Drain(batch[..n], pending, writer), batch[n], writer(n, batch[n]))
  }

  /** Once the drain breaks off, the rest of the batch changes nothing. */
  lemma {:induction false} BrokenStays(batch: seq<Command>, pending: map<string, Value>, writer: Writer, n: nat)
    requires n <= |batch| && Drain(batch[..n], pending, writer).broken
    ensures Drain(batch, pending, writer) == Drain(batch[..n], pending, writer)
    decreases |batch|
  {
    if n < |batch| {
      assert batch[..|batch| - 1][..n] == batch[..n];
      BrokenStays(batch[..|batch| - 1], pending, writer, n);
    } else {
      assert batch[..n] == batch;
    }
  }

  /** For every batch: the drain says it wrote exactly when a write was acknowledged. */
  lemma {:induction false} WroteMeansIssued(batch: seq<Command>, pending: map<string, Value>, writer: Writer)
    ensures Drain(batch, pending, writer).wrote <==> Drain(batch, pending, writer).issued != []
  {
    if batch != [] {
      WroteMeansIssued(batch[..|batch| - 1], pending, writer);
    }
  }

  /** A command that is not waiting to be verified with this very value, and the link fails on it. */
  ghost predicate FailsAt(batch: seq<Command>, pending: map<string, Value>, writer: Writer, n: nat)
    requires n < |batch|
  {
    !(batch[n].key in pending && pending[batch[n].key] == batch[n].value) && writer(n, batch[n]) == Broken
  }

  /** Of the first n commands, those not waiting to be verified with that very value that are acknowledged. */
  ghost function Written(batch: seq<Command>, pending: map<string, Value>, writer: Writer, n: nat): seq<Command>
    requires n <= |batch|
  {
    if n == 0 then []
    else
      var c := batch[n - 1];
      var skipped := c.key in pending && pending[c.key] == c.value;
      Written(batch, pending, writer, n - 1)
      + if !skipped && writer(n - 1, c) == Acknowledged then [c] else []
  }

  /** What the writes waiting to be verified are once some more have been acknowledged. */
  ghost predicate Remembers(after: map<string, Value>, pending: map<string, Value>, issued: seq<Command>) {
    && (forall i | 0 <= i < |issued| :: issued[i].key in after && after[issued[i].key] == issued[i].value)
    && (forall k | k !in after.Keys :: k !in pending)
    && forall k | k in after :: HasKey(issued, k) || (k in pending && after[k] == pending[k])
  }

  /** The drain looks at the first n commands and no further. It issues exactly those acknowledged, skipping the ones
      pending with the same value, and remembers exactly what it issued besides what was pending. */
  ghost predicate IssuesFirst(batch: seq<Command>, pending: map<string, Value>, writer: Writer, n: nat) {
    && n <= |batch| && (forall m | 0 <= m < n :: !FailsAt(batch, pending, writer, m))
    && var d := Drain(batch, pending, writer);
      && (d.broken <==> n < |batch|) && (n < |batch| ==> FailsAt(batch, pending, writer, n))
      && d.issued == Written(batch, pending, writer, n) && Remembers(d.pending, pending, d.issued)
      && forall i | 0 <= i < |d.issued| :: HasKey(batch, d.issued[i].key)
  }

  /** A drain of commands with different keys looks at them in order up to the first whose write the link fails, and
      breaks off there if there is one. */
  lemma {:induction false} DrainIssuesExactly(batch: seq<Command>, pending: map<string, Value>, writer: Writer)
    returns (n: nat)
    requires DistinctKeys(batch)
    ensures IssuesFirst(batch, pending, writer, n)
  {
    n := 0;
    if batch != [] {
      n := DrainIssuesExactly(batch[..|batch| - 1], pending, writer);
      n := OneMoreIssues(batch, pending, writer, n);
    }
  }

  lemma {:induction false} OneMoreIssues(batch: seq<Command>, pending: map<string, Value>, writer: Writer, before: nat)
    returns (n: nat)
    requires batch != [] && DistinctKeys(batch) && IssuesFirst(batch[..|batch| - 1], pending, writer, before)
    ensures IssuesFirst(batch, pending, writer, n)
  {
    PrefixIssues(batch, pending, writer, before);
    n := before;
    if before == |batch| - 1 {
      n := LastIssues(batch, pending, writer);
    }
  }

  lemma {:induction false} LastIssues(batch: seq<Command>, pending: map<string, Value>, writer: Writer)
    returns (n: nat)
    requires batch != [] && DistinctKeys(batch) && IssuesFirst(batch[..|batch| - 1], pending, writer, |batch| - 1)
    ensures IssuesFirst(batch, pending, writer, n)
  {
    n := |batch| - 1;
    var d := Drain(batch[..n], pending, writer);
    PrefixIssues(batch, pending, writer, n);
    LastIsNew(batch, pending, d);
    OneMoreRemembered(batch, pending, d, writer);
    if !FailsAt(batch, pending, writer, n) {
      n := |batch|;
    }
  }

  /** What a drain of all but the last command has done is the same seen from the whole batch. */
  lemma {:induction false} PrefixIssues(batch: seq<Command>, pending: map<string, Value>, writer: Writer, n: nat)
    requires batch != [] && IssuesFirst(batch[..|batch| - 1], pending, writer, n)
    ensures var d := Drain(batch[..|batch| - 1], pending, writer);
      && (forall m | 0 <= m < n :: !FailsAt(batch, pending, writer, m))
      && (n < |batch| - 1 ==> FailsAt(batch, pending, writer, n)) && d.issued == Written(batch, pending, writer, n)
      && forall i | 0 <= i < |d.issued| :: HasKey(batch, d.issued[i].key)
  {
    var last := |batch| - 1;
    WrittenOfPrefix(batch, last, pending, writer, n);
    forall m | 0 <= m < n ensures !FailsAt(batch, pending, writer, m) {
      assert !FailsAt(batch[..last], pending, writer, m);
    }
    KeysOfPrefix(batch, last, Drain(batch[..last], pending, writer).issued);
  }

  lemma {:induction false} WrittenOfPrefix(batch: seq<Command>, m: nat, pending: map<string, Value>, writer: Writer,
                                           n: nat)
    requires n <= m <= |batch|
    ensures Written(batch[..m], pending, writer, n) == Written(batch, pending, writer, n)
  {
    if n > 0 {
      WrittenOfPrefix(batch, m, pending, writer, n - 1);
    }
  }

  lemma {:induction false} KeysOfPrefix(batch: seq<Command>, m: nat, issued: seq<Command>)
    requires m <= |batch| && forall i | 0 <= i < |issued| :: HasKey(batch[..m], issued[i].key)
    ensures forall i | 0 <= i < |issued| :: HasKey(batch, issued[i].key)
  {
    forall i | 0 <= i < |issued| ensures HasKey(batch, issued[i].key) {
      var j :| 0 <= j < m && batch[..m][j].key == issued[i].key;
      assert batch[j].key == issued[i].key;
    }
  }

  /** Nothing was issued for the key of the last command, so it is pending exactly as it was before the drain. */
  lemma {:induction false} LastIsNew(batch: seq<Command>, pending: map<string, Value>, d: Drained)
    requires batch != [] && DistinctKeys(batch) && Remembers(d.pending, pending, d.issued)
    requires forall i | 0 <= i < |d.issued| :: HasKey(batch[..|batch| - 1], d.issued[i].key)
    ensures var c := batch[|batch| - 1];
      !HasKey(d.issued, c.key) && (IsPending(d.pending, c) <==> c.key in pending && pending[c.key] == c.value)
  {
  }

  lemma {:induction false} OneMoreRemembered(batch: seq<Command>, pending: map<string, Value>, d: Drained,
                                             writer: Writer)
    requires batch != [] && Remembers(d.pending, pending, d.issued)
    requires !HasKey(d.issued, batch[|batch| - 1].key)
    requires forall i | 0 <= i < |d.issued| :: HasKey(batch, d.issued[i].key)
    ensures var d' := DrainOne(d, batch[|batch| - 1], writer(|batch| - 1, batch[|batch| - 1]));
      Remembers(d'.pending, pending, d'.issued) && forall i | 0 <= i < |d'.issued| :: HasKey(batch, d'.issued[i].key)
  {
    var c := batch[|batch| - 1];
    var d' := DrainOne(d, c, writer(|batch| - 1, c));
    if d'.issued != d.issued {
      forall k | k in d'.pending ensures HasKey(d'.issued, k) || (k in pending && d'.pending[k] == pending[k]) {
        if k == c.key {
          assert d'.issued[|d.issued|].key == k;
        } else if HasKey(d.issued, k) {
          var i :| 0 <= i < |d.issued| && d.issued[i].key == k;
          assert d'.issued[i].key == k;
        }
      }
    }
  }

  // ---- The device ---------------------------------------------------------------------------------------------

  /** A writer over a given register table: it rejects the commands of the batch that the table rejects and no
      other. */
  ghost predicate Faithful(rows: map<string, Definition>, writer: Writer, batch: seq<Command>) {
    forall n | 0 <= n < |batch| ::
      writer(n, batch[n]) == Refused <==> Accept(rows, batch[n].key, batch[n].value).None?
  }

  function Execute(rows: map<string, Definition>, image: seq<Word>, c: Command): (image': seq<Word>)
    requires InImage(rows, |image|)
    ensures |image'| == |image|
  {
    match Accept(rows, c.key, c.value)
    case None => image
    case Some(words) =>
      AcceptLength(rows, c.key, c.value);
      Overlay(image, rows[c.key].start, words)
  }

  /** The reference: every command executed in turn. */
  function ExecuteAll(rows: map<string, Definition>, image: seq<Word>, cmds: seq<Command>): (image': seq<Word>)
    requires InImage(rows, |image|)
    ensures |image'| == |image|
  {
    if cmds == [] then image
    else Execute(rows, ExecuteAll(rows, image, cmds[..|cmds| - 1]), cmds[|cmds| - 1])
  }

  /** The words the last accepted command for a key writes. */
  function LastAccepted(rows: map<string, Definition>, cmds: seq<Command>, key: string): Option<seq<Word>> {
    if cmds == [] then None
    else
      var c := cmds[|cmds| - 1];
      if c.key == key && Accept(rows, c.key, c.value).Some? then Accept(rows, c.key, c.value)
      else LastAccepted(rows, cmds[..|cmds| - 1], key)
  }

  /** The address belongs to no row. */
  ghost predicate Unmapped(rows: map<string, Definition>, a: int) {
    forall k | k in rows :: a < rows[k].start || rows[k].start + rows[k].length <= a
  }

  ghost predicate AgreeUnmapped(rows: map<string, Definition>, x: seq<Word>, y: seq<Word>) {
    |x| == |y| && forall a | 0 <= a < |x| && Unmapped(rows, a) :: x[a] == y[a]
  }

  /** Images with the same rows and the same unmapped words are the same image. */
  lemma {:induction false} EqualBySlices(rows: map<string, Definition>, x: seq<Word>, y: seq<Word>)
    requires InImage(rows, |x|) && AgreeUnmapped(rows, x, y)
    requires forall k | k in rows :: Slice(rows, x, k) == Slice(rows, y, k)
    ensures x == y
  {
    forall a | 0 <= a < |x| ensures x[a] == y[a] {
      if !Unmapped(rows, a) {
        var k :| k in rows && rows[k].start <= a < rows[k].start + rows[k].length;
        assert Slice(rows, x, k)[a - rows[k].start] == Slice(rows, y, k)[a - rows[k].start];
      }
    }
  }

  lemma {:induction false} ExecuteSlice(rows: map<string, Definition>, image: seq<Word>, c: Command, key: string)
    requires InImage(rows, |image|) && KeysApart(rows) && key in rows
    ensures Slice(rows, Execute(rows, image, c), key)
         == if c.key == key && Accept(rows, c.key, c.value).Some? then Accept(rows, c.key, c.value).value
            else Slice(rows, image, key)
  {
    if Accept(rows, c.key, c.value).Some? {
      AcceptLength(rows, c.key, c.value);
      SliceAfterOverlay(rows, image, c.key, Accept(rows, c.key, c.value).value, key);
    }
  }

  lemma {:induction false} ExecuteUnmapped(rows: map<string, Definition>, image: seq<Word>, c: Command)
    requires InImage(rows, |image|)
    ensures AgreeUnmapped(rows, image, Execute(rows, image, c))
  {
    if Accept(rows, c.key, c.value).Some? {
      AcceptLength(rows, c.key, c.value);
      var d := rows[c.key];
      var words := Accept(rows, c.key, c.value).value;
      forall a | 0 <= a < |image| && Unmapped(rows, a)
        ensures Overlay(image, d.start, words)[a] == image[a]
      {
        assert a < d.start || d.start + d.length <= a;
      }
    }
  }

  /** Row by row, a run of commands leaves what the last accepted command for the row wrote. */
  lemma {:induction false} ExecuteAllSlice(rows: map<string, Definition>, image: seq<Word>, cmds: seq<Command>,
                                           key: string)
    requires InImage(rows, |image|) && KeysApart(rows) && key in rows
    ensures Slice(rows, ExecuteAll(rows, image, cmds), key)
         == match LastAccepted(rows, cmds, key) case Some(words) => words case None => Slice(rows, image, key)
  {
    if cmds != [] {
      var n := |cmds| - 1;
      ExecuteAllSlice(rows, image, cmds[..n], key);
      ExecuteSlice(rows, ExecuteAll(rows, image, cmds[..n]), cmds[n], key);
    }
  }

  lemma {:induction false} ExecuteAllUnmapped(rows: map<string, Definition>, image: seq<Word>, cmds: seq<Command>)
    requires InImage(rows, |image|)
    ensures AgreeUnmapped(rows, image, ExecuteAll(rows, image, cmds))
  {
    if cmds != [] {
      var n := |cmds| - 1;
      ExecuteAllUnmapped(rows, image, cmds[..n]);
      ExecuteUnmapped(rows, ExecuteAll(rows, image, cmds[..n]), cmds[n]);
    }
  }

  /** What makes skipping sound: a pending write is on the device. */
  ghost predicate PendingHeld(rows: map<string, Definition>, image: seq<Word>, pending: map<string, Value>)
    requires InImage(rows, |image|)
  {
    forall k | k in pending ::
      && Accept(rows, k, pending[k]).Some?
      && k in rows && Slice(rows, image, k) == Accept(rows, k, pending[k]).value
  }

  /** One drained command has the effect of executing it, skipped or not, and keeps pending writes on the device. */
  lemma {:induction false} DrainOneExecutes(rows: map<string, Definition>, image: seq<Word>, d: Drained, c: Command,
                                            reply: Reply)
    requires InImage(rows, |image|) && KeysApart(rows)
    requires PendingHeld(rows, ExecuteAll(rows, image, d.issued), d.pending)
    requires reply == Refused <==> Accept(rows, c.key, c.value).None?
    requires !DrainOne(d, c, reply).broken
    ensures ExecuteAll(rows, image, DrainOne(d, c, reply).issued)
         == Execute(rows, ExecuteAll(rows, image, d.issued), c)
    ensures PendingHeld(rows, ExecuteAll(rows, image, DrainOne(d, c, reply).issued), DrainOne(d, c, reply).pending)
  {
    var now := ExecuteAll(rows, image, d.issued);
    var d' := DrainOne(d, c, reply);
    if IsPending(d.pending, c) {
      RewriteIsIdle(rows, now, c);
    } else if reply.Acknowledged? {
      assert d'.issued[..|d'.issued| - 1] == d.issued;
      WrittenIsHeld(rows, now, d.pending, c);
    }
  }

  lemma {:induction false} WrittenIsHeld(rows: map<string, Definition>, image: seq<Word>, pending: map<string, Value>,
                                         c: Command)
    requires InImage(rows, |image|) && KeysApart(rows) && PendingHeld(rows, image, pending)
    requires Accept(rows, c.key, c.value).Some?
    ensures PendingHeld(rows, Execute(rows, image, c), pending[c.key := c.value])
  {
    AcceptLength(rows, c.key, c.value);
    forall k | k in pending[c.key := c.value]
      ensures k in rows && Slice(rows, Execute(rows, image, c), k)
                        == if k == c.key then Accept(rows, c.key, c.value).value else Slice(rows, image, k)
    {
      ExecuteSlice(rows, image, c, k);
    }
  }

  /** Writing what a row already holds changes nothing. */
  lemma {:induction false} RewriteIsIdle(rows: map<string, Definition>, image: seq<Word>, c: Command)
    requires InImage(rows, |image|) && Accept(rows, c.key, c.value).Some? && c.key in rows
    requires Slice(rows, image, c.key) == Accept(rows, c.key, c.value).value
    ensures Execute(rows, image, c) == image
  {
    AcceptLength(rows, c.key, c.value);
    var d := rows[c.key];
    assert image == image[..d.start] + image[d.start..d.start + d.length] + image[d.start + d.length..];
  }

  /** Draining a batch without failure has the effect of executing the batch: skipping pending writes is invisible. */
  lemma {:induction false} DrainExecutesBatch(rows: map<string, Definition>, image: seq<Word>, batch: seq<Command>,
                                              pending: map<string, Value>, writer: Writer)
    requires InImage(rows, |image|) && KeysApart(rows) && Faithful(rows, writer, batch)
    requires PendingHeld(rows, image, pending) && !Drain(batch, pending, writer).broken
    ensures var d := Drain(batch, pending, writer);
      && ExecuteAll(rows, image, d.issued) == ExecuteAll(rows, image, batch)
      && PendingHeld(rows, ExecuteAll(rows, image, d.issued), d.pending)
  {
    if batch != [] {
      var n := |batch| - 1;
      DrainExecutesBatch(rows, image, batch[..n], pending, writer);
      DrainOneExecutes(rows, image, Drain(batch[..n], pending, writer), batch[n], writer(n, batch[n]));
    }
  }

  // ---- Coalescing against one-by-one --------------------------------------------------------------------------

  /** Keeping only the last command for this key does no harm: that command is accepted, or no command for the key is,
      or the row already holds what the last accepted one would have written. */
  ghost predicate Harmless(rows: map<string, Definition>, image: seq<Word>, cmds: seq<Command>, key: string)
    requires InImage(rows, |image|)
  {
    key in LatestByKey(cmds) && key in rows ==>
      || Accept(rows, key, LatestByKey(cmds)[key].value).Some?
      || LastAccepted(rows, cmds, key).None?
      || LastAccepted(rows, cmds, key).value == Slice(rows, image, key)
  }

  lemma {:induction false} LastAcceptedIsLatest(rows: map<string, Definition>, cmds: seq<Command>, key: string)
    ensures key in LatestByKey(cmds) && Accept(rows, key, LatestByKey(cmds)[key].value).Some? ==>
              LastAccepted(rows, cmds, key) == Accept(rows, key, LatestByKey(cmds)[key].value)
    ensures key !in LatestByKey(cmds) ==> LastAccepted(rows, cmds, key) == None
    ensures key in LatestByKey(cmds) ==> LatestByKey(cmds)[key].key == key
  {
    if cmds != [] {
      LastAcceptedIsLatest(rows, cmds[..|cmds| - 1], key);
    }
  }

  /** In a batch with distinct keys the last accepted command for a key is the only one there is. */
  lemma {:induction false} LastAcceptedDistinct(rows: map<string, Definition>, batch: seq<Command>, i: nat)
    requires DistinctKeys(batch) && i < |batch|
    ensures LastAccepted(rows, batch, batch[i].key) == Accept(rows, batch[i].key, batch[i].value)
  {
    var n := |batch| - 1;
    if i < n {
      assert batch[..n][i] == batch[i];
      LastAcceptedDistinct(rows, batch[..n], i);
    } else if Accept(rows, batch[i].key, batch[i].value).None? {
      LastAcceptedAbsent(rows, batch[..n], batch[i].key);
    }
  }

  lemma {:induction false} LastAcceptedAbsent(rows: map<string, Definition>, cmds: seq<Command>, key: string)
    requires forall i | 0 <= i < |cmds| :: cmds[i].key != key
    ensures LastAccepted(rows, cmds, key) == None
  {
    if cmds != [] {
      LastAcceptedAbsent(rows, cmds[..|cmds| - 1], key);
    }
  }

  /** What the coalesced batch writes at a key: the last command's words if it is accepted, nothing otherwise. */
  lemma {:induction false} CoalescedAccepted(rows: map<string, Definition>, cmds: seq<Command>, key: string)
    ensures LastAccepted(rows, Coalesce(cmds), key)
         == if key in LatestByKey(cmds) then Accept(rows, key, LatestByKey(cmds)[key].value) else None
  {
    SameKeys(cmds);
    CoalesceDistinct(cmds);
    LastAcceptedIsLatest(rows, cmds, key);
    if key in LatestByKey(cmds) {
      var i :| 0 <= i < |FirstKeys(cmds)| && FirstKeys(cmds)[i] == key;
      assert Coalesce(cmds)[i] == LatestByKey(cmds)[key];
      LastAcceptedDistinct(rows, Coalesce(cmds), i);
    } else {
      forall i | 0 <= i < |Coalesce(cmds)| ensures Coalesce(cmds)[i].key != key {
        var j := CoalesceAt(cmds, i);
      }
      LastAcceptedAbsent(rows, Coalesce(cmds), key);
    }
  }

  /** Coalescing is invisible at a row exactly when it is harmless there. */
  lemma {:induction false} CoalescedSlice(rows: map<string, Definition>, image: seq<Word>, cmds: seq<Command>,
                                          key: string)
    requires InImage(rows, |image|) && KeysApart(rows) && key in rows
    ensures Slice(rows, ExecuteAll(rows, image, Coalesce(cmds)), key) == Slice(rows, ExecuteAll(rows, image, cmds), key)
       <==> Harmless(rows, image, cmds, key)
  {
    ExecuteAllSlice(rows, image, cmds, key);
    ExecuteAllSlice(rows, image, Coalesce(cmds), key);
    CoalescedAccepted(rows, cmds, key);
    LastAcceptedIsLatest(rows, cmds, key);
  }

  /** One drain leaves the register image that executing every queued command in arrival order would leave, exactly
      when coalescing is harmless for every key. */
  lemma {:induction false} DrainRefinesSequence(rows: map<string, Definition>, image: seq<Word>, cmds: seq<Command>,
                                                pending: map<string, Value>, writer: Writer)
    requires InImage(rows, |image|) && KeysApart(rows) && Faithful(rows, writer, Coalesce(cmds))
    requires PendingHeld(rows, image, pending) && !Drain(Coalesce(cmds), pending, writer).broken
    ensures ExecuteAll(rows, image, Drain(Coalesce(cmds), pending, writer).issued) == ExecuteAll(rows, image, cmds)
       <==> forall k | k in rows :: Harmless(rows, image, cmds, k)
  {
    DrainExecutesBatch(rows, image, Coalesce(cmds), pending, writer);
    var x := ExecuteAll(rows, image, Coalesce(cmds));
    var y := ExecuteAll(rows, image, cmds);
    forall k | k in rows
      ensures Slice(rows, x, k) == Slice(rows, y, k) <==> Harmless(rows, image, cmds, k)
    {
      CoalescedSlice(rows, image, cmds, k);
    }
    ExecuteAllUnmapped(rows, image, Coalesce(cmds));
    ExecuteAllUnmapped(rows, image, cmds);
    if forall k | k in rows :: Harmless(rows, image, cmds, k) {
      EqualBySlices(rows, x, y);
    }
  }

  // ---- Whole runs ---------------------------------------------------------------------------------------------

  /** The queue, the pending writes and the device, beside a reference device that executes every drained command. */
  datatype System = System(queue: seq<Command>, pending: map<string, Value>, image: seq<Word>, reference: seq<Word>)

  /** A command is refused when the queue is full; a drain takes the commands that were queued when it looked; a
      configuration poll forgets the pending writes; a time synchronisation writes the clock, of both devices. */
  datatype Event =
    | QueueCommand(c: Command) | DrainQueue(count: nat, writer: Writer) | ReadBack | SetClock(moment: Moment)

  ghost predicate Allowed(rows: map<string, Definition>, s: System, e: Event)
    requires InImage(rows, |s.image|)
  {
    match e
    case QueueCommand(_) => true
    case ReadBack => true
    case SetClock(_) => CLOCK_START + CLOCK_LENGTH <= |s.image|
    case DrainQueue(count, writer) =>
      && count <= |s.queue| && Faithful(rows, writer, Coalesce(s.queue[..count]))
      && !Drain(Coalesce(s.queue[..count]), s.pending, writer).broken
      && forall k | k in rows :: Harmless(rows, s.image, s.queue[..count], k)
  }

  function Advance(rows: map<string, Definition>, s: System, e: Event): (s': System)
    requires InImage(rows, |s.image|) && InImage(rows, |s.reference|)
    requires e.DrainQueue? ==> e.count <= |s.queue|
    requires e.SetClock? ==> CLOCK_START + CLOCK_LENGTH <= |s.image| && CLOCK_START + CLOCK_LENGTH <= |s.reference|
    ensures |s'.image| == |s.image| && |s'.reference| == |s.reference|
  {
    match e
    case QueueCommand(c) => if |s.queue| < COMMAND_QUEUE_SIZE then s.(queue := s.queue + [c]) else s
    case ReadBack => s.(pending := map[])
    case SetClock(moment) =>
      s.(image := ClockWritten(s.image, [moment]), reference := ClockWritten(s.reference, [moment]))
    case DrainQueue(count, writer) =>
      var d := Drain(Coalesce(s.queue[..count]), s.pending, writer);
      System(s.queue[count..], d.pending, ExecuteAll(rows, s.image, d.issued),
             ExecuteAll(rows, s.reference, s.queue[..count]))
  }

  /** The states of a run: every event is allowed where it happens. */
  ghost predicate IsRun(rows: map<string, Definition>, states: seq<System>, events: seq<Event>, image: seq<Word>) {
    && |states| == |events| + 1 && InImage(rows, |image|)
    && states[0] == System([], map[], image, image)
    && (forall i | 0 <= i < |states| :: |states[i].image| == |image| == |states[i].reference|)
    && (forall i | 0 <= i < |events| ::
          Allowed(rows, states[i], events[i]) && states[i + 1] == Advance(rows, states[i], events[i]))
  }

  lemma {:induction false} AdvanceKeepsUp(rows: map<string, Definition>, s: System, e: Event)
    requires InImage(rows, |s.image|) && KeysApart(rows) && Allowed(rows, s, e)
    requires s.image == s.reference && PendingHeld(rows, s.image, s.pending)
    ensures Advance(rows, s, e).image == Advance(rows, s, e).reference
    ensures PendingHeld(rows, Advance(rows, s, e).image, Advance(rows, s, e).pending)
  {
    if e.DrainQueue? {
      var cmds := s.queue[..e.count];
      DrainExecutesBatch(rows, s.image, Coalesce(cmds), s.pending, e.writer);
      DrainRefinesSequence(rows, s.image, cmds, s.pending, e.writer);
    } else if e.SetClock? {
      ClockShowsLast(rows, s.image, [e.moment]);
    }
  }

  /** Over any run of enqueues, drains, configuration polls and clock writes, with no failing write and coalescing
      harmless at every drain, the device always holds what executing every drained command one by one in arrival order
      would have left, and every pending write is on the device. */
  lemma {:induction false} PipelineRefinesSequence(rows: map<string, Definition>, states: seq<System>,
                                                   events: seq<Event>, image: seq<Word>, n: nat)
    requires IsRun(rows, states, events, image) && KeysApart(rows) && n < |states|
    ensures states[n].image == states[n].reference
    ensures PendingHeld(rows, states[n].image, states[n].pending)
  {
    if n > 0 {
      PipelineRefinesSequence(rows, states, events, image, n - 1);
      AdvanceKeepsUp(rows, states[n - 1], events[n - 1]);
    }
  }

  /** In particular coalescing is harmless wherever the last queued command of each key is one WriteConfig accepts. */
  lemma {:induction false} AcceptedLastIsHarmless(rows: map<string, Definition>, image: seq<Word>, cmds: seq<Command>)
    requires InImage(rows, |image|)
    requires forall j: nat | IsLast(cmds, j) :: Accept(rows, cmds[j].key, cmds[j].value).Some?
    ensures forall k | k in rows :: Harmless(rows, image, cmds, k)
  {
    forall k | k in rows && k in LatestByKey(cmds) ensures Harmless(rows, image, cmds, k) {
      var j := LatestIsLast(cmds, k);
    }
  }

  /** A drain that drops an accepted command because a later one for the same key is rejected does differ. */
  lemma {:induction false} RejectedLastCanDiffer(rows: map<string, Definition>, image: seq<Word>, good: Command,
                                                 bad: Command, writer: Writer)
    requires InImage(rows, |image|) && KeysApart(rows) && Faithful(rows, writer, Coalesce([good, bad]))
    requires good.key == bad.key && Accept(rows, bad.key, bad.value).None?
    requires Accept(rows, good.key, good.value).Some? && good.key in rows
    requires Accept(rows, good.key, good.value).value != Slice(rows, image, good.key)
    requires !Drain(Coalesce([good, bad]), map[], writer).broken
    ensures ExecuteAll(rows, image, Drain(Coalesce([good, bad]), map[], writer).issued)
         != ExecuteAll(rows, image, [good, bad])
  {
    var cmds := [good, bad];
    assert cmds[..1] == [good] && [good][..0] == [];
    assert LatestByKey(cmds) == LatestByKey([good])[bad.key := bad];
    assert LastAccepted(rows, cmds, good.key) == LastAccepted(rows, [good], good.key)
        == Accept(rows, good.key, good.value);
    assert !Harmless(rows, image, cmds, good.key);
    DrainRefinesSequence(rows, image, cmds, map[], writer);
  }
}
