/** The polled read of `twi.c` against an arbitrary stream of status words. */
module Twi {
  import opened Machine

  const TIMEOUT := 15000

  /** One reading of the status register (NACK, RXRDY, TXCOMP), and what the holding register would deliver with it. */
  datatype Poll = Poll(nack: bool, ready: bool, complete: bool, data: Byte)

  datatype Rc = Success | InvalidArgument | ReceiveNack | ErrorTimeout

  /** Accesses to the control and holding registers. */
  datatype Op = Start(stop: bool) | Stop | Read(data: Byte)

  /** The bytes offered by the first `n` polls, in arrival order. */
  function Arrived(sr: nat -> Poll, n: nat): (r: seq<Byte>)
    ensures |r| <= n
  {
    if n == 0 then []
    else if sr(n - 1).ready then Arrived(sr, n - 1) + [sr(n - 1).data]
    else Arrived(sr, n - 1)
  }

  ghost predicate NoNack(sr: nat -> Poll, n: nat) {
    forall i :: 0 <= i < n ==> !sr(i).nack
  }

  /** No byte is offered from poll `a` to poll `b`, exclusive. */
  ghost predicate Silent(sr: nat -> Poll, a: nat, b: nat) {
    forall i :: a <= i < b ==> !sr(i).ready
  }

  function Reads(data: seq<Byte>): (r: seq<Op>)
    ensures |r| == |data|
  {
    seq(|data|, i requires 0 <= i < |data| => Read(data[i]))
  }

  /**
   The register accesses of a read of `length` bytes that has stored `data`: STOP goes with START
   for a single byte, and otherwise is requested once, when one byte is left.
   */
  function Accesses(length: nat, data: seq<Byte>, stopped: bool): seq<Op>
    requires stopped ==> |data| + 1 >= length && length > 0
  {
    var start := [Start(length == 1)];
    if !stopped || length == 1 || |data| + 1 < length then start + Reads(data)
    else start + Reads(data[..length - 1]) + [Stop] + Reads(data[length - 1..])
  }

  /** The number of times STOP is requested. */
  function Stops(ops: seq<Op>): nat {
    if ops == [] then 0
    else Stops(ops[..|ops| - 1]) + if ops[|ops| - 1] == Stop || ops[|ops| - 1] == Start(true) then 1 else 0
  }

  lemma {:induction false} StopsConcat(a: seq<Op>, b: seq<Op>)
    ensures Stops(a + b) == Stops(a) + Stops(b)
  {
    if b == [] {
      assert a + b == a;
    } else {
      StopsConcat(a, b[..|b| - 1]);
      assert (a + b)[..|a + b| - 1] == a + b[..|b| - 1];
    }
  }

  lemma {:induction false} ReadsStopNothing(data: seq<Byte>)
    ensures Stops(Reads(data)) == 0
  {
    if data != [] {
      ReadsStopNothing(data[..|data| - 1]);
      assert Reads(data)[..|data| - 1] == Reads(data[..|data| - 1]);
    }
  }

  function Count1(b: bool): nat {
    if b then 1 else 0
  }

  /** A completed read requests STOP exactly once, and before it reads the last byte. */
  lemma StopOnceBeforeLast(length: nat, data: seq<Byte>)
    requires length > 0 && |data| == length
    ensures var ops := Accesses(length, data, true);
            && Stops(ops) == 1 && ops[|ops| - 1] == Read(data[length - 1]) && Stops(ops[..|ops| - 1]) == 1
  {
    var ops := Accesses(length, data, true);
    var last := [Read(data[length - 1])];
    assert Stops([Start(length == 1)]) == Count1(length == 1) by {
      assert [Start(length == 1)][..0] == [];
    }
    assert Stops([Stop]) == 1 by {
      assert [Stop][..0] == [];
    }
    ReadsStopNothing(data[..length - 1]);
    if length == 1 {
      assert ops == [Start(true)] + last;
      assert ops[..|ops| - 1] == [Start(true)];
    } else {
      var init := [Start(false)] + Reads(data[..length - 1]) + [Stop];
      assert Reads(data[length - 1..]) == last;
      assert ops[..|ops| - 1] == init;
      StopsConcat([Start(false)] + Reads(data[..length - 1]), [Stop]);
      StopsConcat([Start(false)], Reads(data[..length - 1]));
    }
  }

  /** The last byte is announced by STOP. */
  lemma AccessesStop(length: nat, data: seq<Byte>)
    requires length > 1 && |data| == length - 1
    ensures Accesses(length, data, false) + [Stop] == Accesses(length, data, true)
  {
    assert data[..length - 1] == data && data[length - 1..] == [];
  }

  lemma AccessesRead(length: nat, data: seq<Byte>, stopped: bool, b: Byte)
    requires length > 0 && |data| < length && (stopped <==> length == 1 || |data| == length - 1)
    ensures Accesses(length, data, stopped) + [Read(b)] == Accesses(length, data + [b], stopped)
  {
    assert Reads(data + [b]) == Reads(data) + [Read(b)];
    if stopped && length > 1 {
      assert data[..length - 1] == data == (data + [b])[..length - 1];
      assert (data + [b])[length - 1..] == [b];
      assert Reads(data[length - 1..]) == [];
    }
  }

  /** What the outcome of a read of `length` bytes that stored `data` says about the polls. */
  ghost predicate Explained(sr: nat -> Poll, rc: Rc, length: nat, data: seq<Byte>, polls: nat) {
    match rc
    case Success =>
      |data| == length && data == Arrived(sr, polls) && polls > 0 && sr(polls - 1).ready && NoNack(sr, polls)
    case ReceiveNack =>
      && polls > 0 && sr(polls - 1).nack && NoNack(sr, polls - 1)
      && |data| < length && data == Arrived(sr, polls - 1)
    case ErrorTimeout =>
      && polls > TIMEOUT && Silent(sr, polls - 1 - TIMEOUT, polls - 1) && NoNack(sr, polls)
      && |data| < length && data == Arrived(sr, polls - 1)
    case InvalidArgument => length == 0 && polls == 0
  }

  /** After `polls` polls without NACK, the last `waited` of them silent, `data` has arrived. */
  ghost predicate Watched(sr: nat -> Poll, polls: nat, waited: nat, data: seq<Byte>) {
    && waited <= polls && Silent(sr, polls - waited, polls) && NoNack(sr, polls)
    && data == Arrived(sr, polls)
  }

  lemma WatchedNext(sr: nat -> Poll, polls: nat, waited: nat, data: seq<Byte>)
    requires Watched(sr, polls, waited, data) && !sr(polls).nack
    ensures sr(polls).ready ==> Watched(sr, polls + 1, 0, data + [sr(polls).data])
    ensures !sr(polls).ready ==> Watched(sr, polls + 1, waited + 1, data)
  {
  }

  /** What the byte loop keeps: `cnt` bytes are missing and `timeout` polls are left. */
  ghost predicate Reading(sr: nat -> Poll, length: nat, cnt: nat, timeout: nat, polls: nat,
                          data: seq<Byte>, stopped: bool, ops: seq<Op>)
  {
    && |data| + cnt == length > 0 && timeout <= TIMEOUT
    && polls <= (TIMEOUT + 1) * |data| + (TIMEOUT - timeout)
    && Watched(sr, polls, TIMEOUT - timeout, data)
    && (stopped ==> cnt <= 1) && (length == 1 || cnt == 0 ==> stopped)
    && (cnt == 0 ==> polls > 0 && sr(polls - 1).ready)
    && ops == Accesses(length, data, stopped)
  }

  /** The accesses of one more poll. */
  function StopOps(cnt: nat, stopped: bool): seq<Op> {
    if cnt == 1 && !stopped then [Stop] else []
  }

  lemma ReadingSilent(sr: nat -> Poll, length: nat, cnt: nat, timeout: nat, polls: nat,
                      data: seq<Byte>, stopped: bool, ops: seq<Op>)
    requires Reading(sr, length, cnt, timeout, polls, data, stopped, ops) && cnt > 0 && timeout > 0
    requires !sr(polls).nack && !sr(polls).ready
    ensures Reading(sr, length, cnt, timeout - 1, polls + 1, data, stopped || cnt == 1, ops + StopOps(cnt, stopped))
  {
    WatchedNext(sr, polls, TIMEOUT - timeout, data);
    if cnt == 1 && !stopped {
      AccessesStop(length, data);
    }
  }

  lemma ReadingByte(sr: nat -> Poll, length: nat, cnt: nat, timeout: nat, polls: nat,
                    data: seq<Byte>, stopped: bool, ops: seq<Op>)
    requires Reading(sr, length, cnt, timeout, polls, data, stopped, ops) && cnt > 0 && timeout > 0
    requires !sr(polls).nack && sr(polls).ready
    ensures Reading(sr, length, cnt - 1, TIMEOUT, polls + 1, data + [sr(polls).data], stopped || cnt == 1,
                    ops + StopOps(cnt, stopped) + [Read(sr(polls).data)])
  {
    WatchedNext(sr, polls, TIMEOUT - timeout, data);
    if cnt == 1 && !stopped {
      AccessesStop(length, data);
    }
    AccessesRead(length, data, stopped || cnt == 1, sr(polls).data);
  }

  /** A NACK, or a poll too many without a byte, ends the read. */
  lemma ReadingFails(sr: nat -> Poll, length: nat, cnt: nat, timeout: nat, polls: nat,
                     data: seq<Byte>, stopped: bool, ops: seq<Op>)
    requires Reading(sr, length, cnt, timeout, polls, data, stopped, ops) && cnt > 0 && (sr(polls).nack || timeout == 0)
    ensures Explained(sr, if sr(polls).nack then ReceiveNack else ErrorTimeout, length, data, polls + 1)
    ensures polls + 1 <= (TIMEOUT + 1) * length && (stopped ==> |data| + 1 >= length)
    ensures ops == Accesses(length, data, stopped)
  {
  }

  lemma ReadingDone(sr: nat -> Poll, length: nat, timeout: nat, polls: nat,
                    data: seq<Byte>, stopped: bool, ops: seq<Op>)
    requires Reading(sr, length, 0, timeout, polls, data, stopped, ops) && timeout == TIMEOUT
    ensures Explained(sr, Success, length, data, polls) && polls <= (TIMEOUT + 1) * length
    ensures stopped && ops == Accesses(length, data, true)
  {
  }

  /** `*buffer++ = data`; from `got` on the buffer still is what it was before the read. */
  method StoreByte(buffer: array<Byte>, got: nat, data: Byte, ghost was: seq<Byte>)
    requires got < buffer.Length == |was| && buffer[got..] == was[got..]
    modifies buffer
    ensures buffer[..got + 1] == old(buffer[..got]) + [data] && buffer[got + 1..] == was[got + 1..]
  {
    assert was[got + 1..] == buffer[got..][1..];
    buffer[got] := data;
  }

  /**
   `twi_master_read` up to the wait for completion: `polls` counts the status readings and `got`
   the bytes stored. Whatever the hardware answers, the loop ends within 15001 polls per byte.
   */
  method ReadBytes(sr: nat -> Poll, buffer: array<Byte>, length: nat)
    returns (rc: Rc, got: nat, polls: nat, ops: seq<Op>, stopSent: bool)
    requires length <= buffer.Length
    modifies buffer
    ensures length == 0 <==> rc == InvalidArgument
    ensures got <= length && buffer[got..] == old(buffer[got..])
    ensures polls <= 15001 * length
    ensures Explained(sr, rc, length, buffer[..got], polls)
    ensures rc == InvalidArgument ==> ops == []
    ensures rc == Success ==> stopSent
    ensures rc != InvalidArgument ==>
              (stopSent ==> got + 1 >= length) && ops == Accesses(length, buffer[..got], stopSent)
  {
    got, polls, ops, stopSent := 0, 0, [], false;
    if length == 0 {
      rc := InvalidArgument;
      return;
    }
    var cnt: nat := length;
    stopSent := cnt == 1;
    ops := [Start(cnt == 1)];
    var timeout: nat := TIMEOUT;
    ghost var data: seq<Byte> := [];
    while cnt > 0
      invariant got == |data| == length - cnt && (cnt == 0 ==> timeout == TIMEOUT)
      invariant Reading(sr, length, cnt, timeout, polls, data, stopSent, ops)
      invariant buffer[..got] == data && buffer[got..] == old(buffer[..])[got..]
      decreases cnt, timeout
    {
      var status := sr(polls);
      if status.nack || timeout == 0 {
        ReadingFails(sr, length, cnt, timeout, polls, data, stopSent, ops);
        polls := polls + 1;
        rc := if status.nack then ReceiveNack else ErrorTimeout;
        return;
      }
      if !status.ready {
        ReadingSilent(sr, length, cnt, timeout, polls, data, stopSent, ops);
      } else {
        ReadingByte(sr, length, cnt, timeout, polls, data, stopSent, ops);
      }
      polls := polls + 1;
      timeout := timeout - 1;
      ops := ops + StopOps(cnt, stopSent);
      stopSent := stopSent || cnt == 1;
      if status.ready {
        StoreByte(buffer, got, status.data, old(buffer[..]));
        data := data + [status.data];
        ops := ops + [Read(status.data)];
        got := got + 1;
        cnt := cnt - 1;
        timeout := TIMEOUT;
      }
    }
    ReadingDone(sr, length, timeout, polls, data, stopSent, ops);
    rc := Success;
  }

  /** `twi_mk_addr`: the internal address, most significant byte first. */
  function MkAddr(address: seq<Byte>): nat
    requires |address| <= 3
  {
    if address == [] then 0
    else
      var val0: int := address[0];
      var val1 := if |address| > 1 then val0 * 0x100 + address[1] else val0;
      if |address| > 2 then val1 * 0x100 + address[2] else val1
  }

  /** The bytes can be read back from the address register, so that no two addresses of one length are confused. */
  lemma MkAddrReadsBack(address: seq<Byte>)
    requires |address| <= 3
    ensures MkAddr(address) < 0x100_0000
    ensures |address| > 0 ==> MkAddr(address) % 0x100 == address[|address| - 1]
    ensures |address| > 1 ==> MkAddr(address) / 0x100 == MkAddr(address[..|address| - 1])
  {
  }

  /** The first status reading from `polls` on that shows the transfer complete. */
  ghost predicate FirstComplete(sr: nat -> Poll, polls: nat, at: nat) {
    polls <= at && sr(at).complete && forall i :: polls <= i < at ==> !sr(i).complete
  }

  /**
   `twi_master_read`. Besides the byte loop: the internal address is that of the packet, and after
   the last byte the function waits for the first reading that shows the transfer complete, which the
   code does not bound: `bound` is a reading by which the hardware completes.
   */
  method MasterRead(sr: nat -> Poll, ghost bound: nat, address: seq<Byte>, buffer: array<Byte>, length: nat)
    returns (rc: Rc, iadr: nat, got: nat, polls: nat, ops: seq<Op>, stopSent: bool)
    requires length <= buffer.Length && |address| <= 3
    requires (TIMEOUT + 1) * length <= bound && sr(bound).complete
    modifies buffer
    ensures got <= length && buffer[got..] == old(buffer[got..])
    ensures rc == InvalidArgument <==> length == 0
    ensures rc != InvalidArgument ==> iadr == MkAddr(address)
    ensures rc == Success ==>
              && got == length && ops == Accesses(length, buffer[..got], true)
              && polls > 0 && exists n: nat ::
                   FirstComplete(sr, n, polls - 1) && Explained(sr, Success, length, buffer[..got], n)
    ensures rc == ReceiveNack || rc == ErrorTimeout ==> Explained(sr, rc, length, buffer[..got], polls)
  {
    iadr := MkAddr(address);
    rc, got, polls, ops, stopSent := ReadBytes(sr, buffer, length);
    if rc != Success {
      return;
    }
    ghost var n := polls;
    while !sr(polls).complete
      invariant n <= polls <= bound
      invariant forall i :: n <= i < polls ==> !sr(i).complete
      decreases bound - polls
    {
      polls := polls + 1;
    }
    assert FirstComplete(sr, n, polls);
    polls := polls + 1;
  }
}
