/** Register writes on the serial link: modbus_client.go. Times are nanoseconds on a clock that never runs
    backwards. */
module ModbusClient {
  import opened Basics
  import opened RegisterCodec

  const REGISTER_WRITE_INTERVAL: nat := 850_000_000

  datatype Failure = Cancelled | Fatal | Refused

  /** Write Single Register and Write Multiple Registers (MODBUS Application Protocol V1.1b3, sections 6.6 and
      6.12). */
  datatype Pdu = WriteSingle(address: int, word: Word) | WriteMultiple(address: int, count: nat, data: seq<Byte>)

  function PduOf(start: int, words: seq<Word>): Pdu {
    if |words| == 1 then WriteSingle(start, words[0]) else WriteMultiple(start, |words|, BytesOf(words))
  }

  /** The words a device stores when it executes the request. */
  function WordsIn(pdu: Pdu): seq<Word> {
    match pdu
    case WriteSingle(_, word) => [word]
    case WriteMultiple(_, count, data) => PackedText(data, count)
  }

  /** A request carries exactly the words it was built from, high bytes first, and writes a single register exactly
      when there is one. */
  lemma {:induction false} PduCarriesWords(start: int, words: seq<Word>)
    ensures PduOf(start, words).address == start && WordsIn(PduOf(start, words)) == words
    ensures PduOf(start, words).WriteSingle? <==> |words| == 1
    ensures |words| != 1 ==>
              && PduOf(start, words).count == |words| && |PduOf(start, words).data| == 2 * |words|
              && forall i | 0 <= i < |words| :: HighByteFirst(PduOf(start, words).data, i, words[i])
  {
    WordsOverTheWire(words);
    BytesInOrder(words);
  }

  datatype Request = Request(begin: int, end: int, pdu: Pdu)

  /** What the surroundings do during one call of WriteRegisters: how long each part takes, whether the context is
      cancelled while it waits, what the value callback and the device answer. */
  datatype Attempt = Attempt(
    lockWait: nat,
    cancelAfter: Option<nat>,
    oversleep: nat,
    prepare: nat,
    values: Result<seq<Word>, Failure>,
    busy: nat,
    failure: Option<Failure>,
    settle: nat)

  datatype LinkState = LinkState(now: int, last: Option<int>, requests: seq<Request>)

  function Wait(s: LinkState, now: int): int {
    match s.last
    case None => 0
    case Some(last) => REGISTER_WRITE_INTERVAL - (now - last)
  }

  /** The state after one call of WriteRegisters, and its error. */
  function Write(s: LinkState, start: int, a: Attempt): (LinkState, Option<Failure>) {
    var called := s.now + a.lockWait;
    var wait := Wait(s, called);
    if wait > 0 && a.cancelAfter.Some? && a.cancelAfter.value < wait then
      (s.(now := called + a.cancelAfter.value), Some(Cancelled))
    else
      var begin := called + (if wait > 0 then wait + a.oversleep else 0) + a.prepare;
      match a.values
      case Err(e) => (s.(now := begin), Some(e))
      case Ok(words) =>
        var end := begin + a.busy;
        var done := end + a.settle;
        (LinkState(done, Some(done), s.requests + [Request(begin, end, PduOf(start, words))]), a.failure)
  }

  /** Everything the process does with the link: write, or spend time on reads, connects, closes and recovery. */
  datatype Use = WriteUse(start: int, attempt: Attempt) | OtherUse(duration: nat)

  function Run(s: LinkState, uses: seq<Use>): LinkState {
    if uses == [] then s
    else
      var before := Run(s, uses[..|uses| - 1]);
      match uses[|uses| - 1]
      case WriteUse(start, attempt) => Write(before, start, attempt).0
      case OtherUse(duration) => before.(now := before.now + duration)
  }

  ghost predicate Paced(requests: seq<Request>) {
    forall i, j | 0 <= i < j < |requests| :: requests[i].end + REGISTER_WRITE_INTERVAL <= requests[j].begin
  }

  ghost predicate Timely(s: LinkState) {
    && Paced(s.requests)
    && (s.last.None? ==> s.requests == [])
    && (s.last.Some? ==> s.last.value <= s.now)
    && (forall i | 0 <= i < |s.requests| ::
          s.requests[i].begin <= s.requests[i].end && s.requests[i].end <= s.last.value)
  }

  lemma {:induction false} WriteIsTimely(s: LinkState, start: int, a: Attempt)
    requires Timely(s)
    ensures Timely(Write(s, start, a).0)
  {
    var s' := Write(s, start, a).0;
    if s'.requests != s.requests {
      var r := s'.requests[|s.requests|];
      assert s.last.Some? ==> s.last.value + REGISTER_WRITE_INTERVAL <= r.begin;
    }
  }

  /** Over any run, from a fresh client, any two write requests are at least 850 ms apart: the later one starts that
      long after the earlier one ended, whether it succeeded or failed, and whatever reconnects lie between. */
  lemma {:induction false} WritesArePaced(now: int, uses: seq<Use>)
    ensures Timely(Run(LinkState(now, None, []), uses))
    ensures Paced(Run(LinkState(now, None, []), uses).requests)
  {
    if uses != [] {
      var n := |uses| - 1;
      WritesArePaced(now, uses[..n]);
      var before := Run(LinkState(now, None, []), uses[..n]);
      if uses[n].WriteUse? {
        WriteIsTimely(before, uses[n].start, uses[n].attempt);
      }
    }
  }

  /** What is left of the 850 ms after the last write when a call has got its turn. */
  ghost function Due(s: LinkState, a: Attempt): nat {
    if s.last.None? then 0 else Max(0, s.last.value + 850_000_000 - (s.now + a.lockWait))
  }

  /** A call sends exactly one request if its context outlasts what is left of the 850 ms and its values can be made,
      and otherwise none, leaving the pacing mark alone. It begins as soon as that time is over and the values are
      made, carries them to its address, and reports what the device answers. */
  lemma {:induction false} WriteSendsOnce(s: LinkState, start: int, a: Attempt)
    ensures var (s', error) := Write(s, start, a);
      var interrupted := a.cancelAfter.Some? && a.cancelAfter.value < Due(s, a);
      if interrupted || a.values.Err? then
        && s'.requests == s.requests && s'.last == s.last
        && error == Some(if interrupted then Cancelled else a.values.error)
      else (
        var begin := s.now + a.lockWait + Due(s, a) + (if Due(s, a) > 0 then a.oversleep else 0) + a.prepare;
        && s'.last == Some(s'.now) && error == a.failure
        && exists pdu: Pdu :: s'.requests == s.requests + [Request(begin, begin + a.busy, pdu)]
                              && pdu.address == start && WordsIn(pdu) == a.values.value)
  {
    if a.values.Ok? {
      PduCarriesWords(start, a.values.value);
      var sent := Write(s, start, a).0.requests;
      assert |sent| > |s.requests| ==> sent[|s.requests|].pdu == PduOf(start, a.values.value);
    }
  }

  class ModbusClient {
    var lastRegisterWrite: Option<int>
    ghost var now: int
    ghost var requests: seq<Request>

    ghost function State(): LinkState
      reads this
    {
      LinkState(now, lastRegisterWrite, requests)
    }

    constructor (ghost start: int)
      ensures State() == LinkState(start, None, [])
      ensures Timely(State())
    {
      lastRegisterWrite, now, requests := None, start, [];
    }

    method WriteRegisters(start: int, a: Attempt, clock: int) returns (error: Option<Failure>)
      requires Timely(State()) && clock == now
      modifies this
      ensures (State(), error) == Write(old(State()), start, a)
      ensures Timely(State())
    {
      WriteIsTimely(State(), start, a);
      var time := clock + a.lockWait;
      if lastRegisterWrite.Some? {
        var wait := REGISTER_WRITE_INTERVAL - (time - lastRegisterWrite.value);
        if wait > 0 {
          if a.cancelAfter.Some? && a.cancelAfter.value < wait {
            now := time + a.cancelAfter.value;
            return Some(Cancelled);
          }
          time := time + wait + a.oversleep;
        }
      }
      time := time + a.prepare;
      now := time;
      if a.values.Err? {
        return Some(a.values.error);
      }
      var words := a.values.value;
      var pdu: Pdu;
      if |words| == 1 {
        pdu := WriteSingle(start, words[0]);
      } else {
        var data := RegistersToBytes(words);
        pdu := WriteMultiple(start, |words|, data);
      }
      requests := requests + [Request(time, time + a.busy, pdu)];
      now := time + a.busy + a.settle;
      lastRegisterWrite := Some(time + a.busy + a.settle);
      error := a.failure;
    }
  }
}
