/** Complete control transfers: what the host gets for an IN payload and what an OUT buffer ends up with. */
module ControlTransfers {
  import opened Machine
  import opened Control
  import opened ControlProofs

  const NO_CORE := Core(false, [], 0, false, false)

  /** TX-complete interrupt of a host that neither refills nor aborts. */
  const TX_DONE := Interrupt(Status(false, true, false, false, false), [], NO_CORE, Refuse, false, false)

  /** An OUT packet. */
  function OutPacket(data: seq<Byte>): Event {
    Interrupt(Status(false, false, true, false, false), data, NO_CORE, Refuse, false, false)
  }

  function SetupPacket(bytes: seq<Byte>, core: Core): Event {
    Interrupt(Status(true, false, false, false, false), bytes, core, Refuse, false, false)
  }

  function CallbackOf(c: Ctrl): seq<nat> {
    if c.req.callback.Some? then [c.req.callback.value] else []
  }

  // ----- callbacks around a SETUP packet -----

  /** The first stage of a request neither calls nor forgets a callback. */
  lemma BeginCallsNothing(c: Ctrl)
    requires c.req.size <= |c.req.payload|
    ensures Begin(c, Refuse, false).calls == c.calls && Begin(c, Refuse, false).req.callback == c.req.callback
  {
  }

  /** What was going on is over and its callback has run. */
  lemma ReopenedCalls(c: Ctrl)
    requires Callbacks(c)
    ensures Reopened(c).calls == c.calls.(done := c.calls.done + CallbackOf(c)) && Reopened(c).req.callback.None?
  {
  }

  /**
   A SETUP packet in any other stage ends the request before it: its callback runs once, also
   after a stall, and then the new request is decoded.
   */
  lemma SetupEndsRequest(c: Ctrl, bytes: seq<Byte>, core: Core)
    requires Inv(c) && |bytes| <= PACKET
    requires |bytes| == 8 ==> CoreOk(Decode(bytes).0, Decode(bytes).1, core)
    ensures var s := Step(c, SetupPacket(bytes, core));
            var k := if |bytes| == 8 && core.callback then 1 else 0;
            && s.calls == Calls(c.calls.done + CallbackOf(c), c.calls.registered + k, c.calls.dropped)
            && s.req.callback == if k == 1 then Some(c.calls.registered) else None
  {
    var e := SetupPacket(bytes, core);
    var c1 := c.(irq := c.irq.(nakIn := false, nakOut := false, stall := false));
    assert Step(c, e) == SetupReceived(c1, bytes, core, Refuse, false);
    ReopenedCalls(c1);
    if |bytes| == 8 && core.ok {
      BeginCallsNothing(Accept(Reopened(c1), Decode(bytes).0, Decode(bytes).1, core));
    }
  }

  /** What the ledger of callbacks shows once a request that began in `c` is over: its callback ran exactly once. */
  predicate CalledOnce(c: Ctrl, core: Core, s: Ctrl) {
    && s.stage.Setup? && s.req.callback.None? && !s.irq.tx
    && s.calls.done == c.calls.done + CallbackOf(c) + (if core.callback then [c.calls.registered] else [])
    && s.calls.registered == c.calls.registered + (if core.callback then 1 else 0)
    && s.calls.dropped == c.calls.dropped
  }

  // ----- IN -----

  /** The number of data packets section 8.5.3.2 of USB 2.0 asks for. */
  function PacketCount(n: nat, wLength: nat): nat {
    (n + 63) / 64 + if n % 64 == 0 && n != wLength then 1 else 0
  }

  function Piece(d: seq<Byte>, j: nat): seq<Byte> {
    d[Min(64 * j, |d|)..Min(64 * j + 64, |d|)]
  }

  /** Full packets, then a short or empty one unless the host asked for no more. */
  function Fragments(d: seq<Byte>, wLength: nat): seq<seq<Byte>> {
    seq(PacketCount(|d|, wLength), j requires 0 <= j => Piece(d, j))
  }

  /** The state once packet `j` is in the endpoint. */
  predicate AtPacket(c: Ctrl, d: seq<Byte>, wLength: nat, j: nat) {
    && c.stage.DataIn? && c.irq.tx && !c.req.overUnder
    && c.req.size == |d| && |d| <= |c.req.payload| && c.req.payload[..|d|] == d && c.req.wLength == wLength
    && j < PacketCount(|d|, wLength)
    && c.log.packets == Fragments(d, wLength)[..j + 1]
    && c.cnt == Min(64 * j + 64, |d|)
    && c.short == (|Piece(d, j)| < 64)
    && (64 * j < |d| ==> c.prev == 0)
  }

  /** A TX-complete interrupt of the data stage is one turn of `InContinue`. */
  lemma TxStep(c: Ctrl)
    requires c.stage.DataIn? && c.irq.tx && c.Bounded()
    ensures Step(c, TX_DONE) == InContinue(c.(irq := c.irq.(tx := false, nakIn := false, nakOut := false)), Refuse, false)
  {
  }

  lemma FragmentsNext(d: seq<Byte>, wLength: nat, j: nat)
    requires j + 1 < PacketCount(|d|, wLength) && d != []
    ensures Fragments(d, wLength)[..j + 2] == Fragments(d, wLength)[..j + 1] + [Piece(d, j + 1)]
    ensures 64 * j + 64 <= |d|
    ensures 64 * j + 64 == |d| ==> |d| != wLength
  {
    var fs := Fragments(d, wLength);
    assert fs[..j + 2] == fs[..j + 1] + [fs[j + 1]];
  }

  lemma SliceOfPrefix(p: seq<Byte>, n: nat, a: nat, b: nat)
    requires a <= b <= n <= |p|
    ensures p[..n][a..b] == p[a..b]
  {
  }

  /** The bytes of the next packet are the next piece of the payload. */
  lemma NextIsPiece(c: Ctrl, d: seq<Byte>, j: nat)
    requires c.Bounded() && c.req.size == |d| && c.req.payload[..|d|] == d && c.cnt == Min(64 * j, |d|)
    ensures NextPacket(c) == Piece(d, j)
  {
    var a, b := Min(64 * j, |d|), Min(64 * j + 64, |d|);
    assert c.cnt + Min(PACKET, c.req.size - c.cnt) == b;
    SliceOfPrefix(c.req.payload, |d|, a, b);
  }

  lemma ContinueNext(c: Ctrl, d: seq<Byte>, wLength: nat, j: nat)
    requires d != [] && AtPacket(c.(irq := c.irq.(tx := true)), d, wLength, j) && j + 1 < PacketCount(|d|, wLength)
    ensures var r := InContinue(c, Refuse, false);
            AtPacket(r, d, wLength, j + 1) && r.req.callback == c.req.callback && r.calls == c.calls
  {
    FragmentsNext(d, wLength, j);
    NextIsPiece(c, d, j + 1);
    var r := InContinue(c, Refuse, false);
    if c.req.size != c.cnt {
      assert r == SendPacket(c, false);
    } else {
      var c2 := c.(prev := Wrap16(c.prev + c.cnt));
      assert Refilled(c2, Refuse) == c2;
      assert r == SendPacket(c2, false);
    }
  }

  lemma PacketStep(c: Ctrl, d: seq<Byte>, wLength: nat, j: nat)
    requires d != [] && AtPacket(c, d, wLength, j) && j + 1 < PacketCount(|d|, wLength)
    ensures AtPacket(Step(c, TX_DONE), d, wLength, j + 1)
    ensures Step(c, TX_DONE).req.callback == c.req.callback && Step(c, TX_DONE).calls == c.calls
  {
    TxStep(c);
    ContinueNext(c.(irq := c.irq.(tx := false, nakIn := false, nakOut := false)), d, wLength, j);
  }

  /** After the last packet the device waits for the status packet of the host. */
  lemma PacketLast(c: Ctrl, d: seq<Byte>, wLength: nat, j: nat)
    requires d != [] && AtPacket(c, d, wLength, j) && j + 1 == PacketCount(|d|, wLength)
    ensures var e := Step(c, TX_DONE);
            && e.stage.WaitOutZlp? && e.log.packets == Fragments(d, wLength) && !e.irq.tx
            && e.req.callback == c.req.callback && e.calls == c.calls
  {
    TxStep(c);
    var fs := Fragments(d, wLength);
    assert fs[..j + 1] == fs;
  }

  /** `n` TX-complete interrupts. */
  function TxDones(n: nat): seq<Event> {
    seq(n, _ => TX_DONE)
  }

  lemma RunTx(c: Ctrl, j: nat)
    requires j > 0 && Run(c, TxDones(j - 1)).Bounded()
    ensures Run(c, TxDones(j)) == Step(Run(c, TxDones(j - 1)), TX_DONE)
  {
    assert TxDones(j)[..j - 1] == TxDones(j - 1);
  }

  lemma {:induction false} PacketRun(c: Ctrl, d: seq<Byte>, wLength: nat, j: nat)
    requires d != [] && AtPacket(c, d, wLength, 0) && j < PacketCount(|d|, wLength)
    ensures AtPacket(Run(c, TxDones(j)), d, wLength, j)
    ensures var e := Run(c, TxDones(j)); e.req.callback == c.req.callback && e.calls == c.calls
  {
    if j > 0 {
      PacketRun(c, d, wLength, j - 1);
      RunTx(c, j);
      PacketStep(Run(c, TxDones(j - 1)), d, wLength, j - 1);
    }
  }

  /** The first packet goes out as soon as the core has accepted the request. */
  lemma FirstPacket(c: Ctrl, bytes: seq<Byte>, core: Core)
    requires Inv(c) && |bytes| == 8 && Decode(bytes).0 && Decode(bytes).1 > 0
    requires core.ok && 0 < core.size <= |core.payload| && !core.overUnder
    ensures var e := Step(c, SetupPacket(bytes, core));
            AtPacket(e, core.payload[..core.size], Decode(bytes).1, 0)
  {
    var d := core.payload[..core.size];
    var wLength := Decode(bytes).1;
    var fs := Fragments(d, wLength);
    assert fs[..1] == [] + [Piece(d, 0)];
    assert Piece(d, 0) == core.payload[0..Min(PACKET, core.size)];
  }

  lemma PacketsToStatus(c: Ctrl, d: seq<Byte>, wLength: nat)
    requires d != [] && AtPacket(c, d, wLength, 0)
    ensures var r := Run(c, TxDones(PacketCount(|d|, wLength)));
            && r.stage.WaitOutZlp? && r.log.packets == Fragments(d, wLength) && !r.irq.tx
            && r.req.callback == c.req.callback && r.calls == c.calls
  {
    var n := PacketCount(|d|, wLength);
    var j := n - 1;
    PacketRun(c, d, wLength, j);
    var p := Run(c, TxDones(j));
    PacketLast(p, d, wLength, j);
    RunTx(c, n);
    assert Run(c, TxDones(n)) == Step(p, TX_DONE);
  }

  /** The OUT status packet completes an IN request. */
  lemma InStatus(c: Ctrl)
    requires c.stage.WaitOutZlp?
    ensures var r := Step(c, OutPacket([]));
            && r.stage.Setup? && r.req.callback.None? && !r.irq.tx
            && r.calls == c.calls.(done := c.calls.done + CallbackOf(c))
  {
  }

  /**
   IN transfer. For every non-empty payload, no refill and no abort by the host: after the SETUP
   packet and one TX-complete interrupt for each packet, the packets sent are `Fragments` of the
   payload and the device waits for the OUT status packet; that one frees the endpoint, and the
   callback of the request has run exactly once.
   */
  lemma InTransfer(c: Ctrl, bytes: seq<Byte>, core: Core)
    requires Inv(c) && |bytes| == 8 && Decode(bytes).0 && Decode(bytes).1 > 0
    requires core.ok && 0 < core.size <= |core.payload| && !core.overUnder
    ensures var d, wLength := core.payload[..core.size], Decode(bytes).1;
            var first := Step(c, SetupPacket(bytes, core));
            var r := Run(first, TxDones(PacketCount(|d|, wLength)));
            && r.stage.WaitOutZlp? && r.log.packets == Fragments(d, wLength) && !r.irq.tx
            && CalledOnce(c, core, Step(r, OutPacket([])))
  {
    FirstPacket(c, bytes, core);
    SetupEndsRequest(c, bytes, core);
    var d, wLength := core.payload[..core.size], Decode(bytes).1;
    var first := Step(c, SetupPacket(bytes, core));
    PacketsToStatus(first, d, wLength);
    InStatus(Run(first, TxDones(PacketCount(|d|, wLength))));
  }

  /** A host that asked for `wLength` bytes reads packets until it has them or one is short. */
  function HostReads(ps: seq<seq<Byte>>, wLength: nat): (bytes: seq<Byte>)
  {
    if ps == [] then []
    else if |ps[0]| < 64 || |ps[0]| >= wLength then ps[0]
    else ps[0] + HostReads(ps[1..], wLength - |ps[0]|)
  }

  /** The number of packets that host reads. */
  function HostCount(ps: seq<seq<Byte>>, wLength: nat): nat {
    if ps == [] then 0
    else if |ps[0]| < 64 || |ps[0]| >= wLength then 1
    else 1 + HostCount(ps[1..], wLength - |ps[0]|)
  }

  lemma PieceTail(d: seq<Byte>, j: nat)
    requires 64 <= |d|
    ensures Piece(d, j + 1) == Piece(d[64..], j)
  {
    var t := d[64..];
    var a, b := Min(64 * j, |t|), Min(64 * j + 64, |t|);
    assert Min(64 * (j + 1), |d|) == 64 + a && Min(64 * (j + 1) + 64, |d|) == 64 + b;
    assert t[a..b] == d[64 + a..64 + b];
  }

  lemma FragmentsTail(d: seq<Byte>, wLength: nat)
    requires 64 <= |d| && 64 < wLength && (|d| > 64 || |d| != wLength)
    ensures var fs := Fragments(d, wLength);
            && |fs| > 1 && fs[0] == d[..64]
            && fs[1..] == Fragments(d[64..], wLength - 64)
  {
    var fs, gs := Fragments(d, wLength), Fragments(d[64..], wLength - 64);
    assert |fs| == |gs| + 1;
    forall j | 0 <= j < |gs|
      ensures fs[1..][j] == gs[j]
    {
      assert fs[1..][j] == Piece(d, j + 1);
      PieceTail(d, j);
    }
  }

  /**
   Round trip: for a payload no longer than the host asked for, the host reads exactly the
   packets the device sends, and what it puts together is the payload.
   */
  lemma {:induction false} InRoundTrip(d: seq<Byte>, wLength: nat)
    requires |d| <= wLength && wLength > 0
    ensures HostReads(Fragments(d, wLength), wLength) == d
    ensures HostCount(Fragments(d, wLength), wLength) == |Fragments(d, wLength)|
    decreases |d|
  {
    var fs := Fragments(d, wLength);
    if |d| >= 64 && wLength > 64 {
      FragmentsTail(d, wLength);
      InRoundTrip(d[64..], wLength - 64);
      assert d == d[..64] + d[64..];
    } else {
      assert fs == [d] by {
        assert PacketCount(|d|, wLength) == 1;
        assert Piece(d, 0) == d;
      }
    }
  }

  /**
   An IN request with an empty payload: `b_shortpacket` is static, so the empty data packet is
   sent exactly when the last IN packet of the earlier requests was a full one; otherwise the
   device goes straight to the status stage and the data stage stays unanswered.
   */
  lemma EmptyInDependsOnHistory(c: Ctrl, bytes: seq<Byte>, core: Core)
    requires Inv(c) && |bytes| == 8 && Decode(bytes).0 && Decode(bytes).1 > 0
    requires core.ok && core.size == 0 && !core.overUnder
    ensures var r := Step(c, SetupPacket(bytes, core));
            && (r.log.packets == Fragments([], Decode(bytes).1) <==> !c.short)
            && (c.short ==> r.stage.WaitOutZlp? && r.log.packets == [])
            && (!c.short ==> r.stage.DataIn? && r.short)
  {
    var fs := Fragments([], Decode(bytes).1);
    assert fs == [[]] by {
      assert PacketCount(0, Decode(bytes).1) == 1;
      assert Piece([], 0) == [];
    }
  }

  /** The setup packet of an IN request for two bytes, and a core that has one. */
  const ASK_TWO: seq<Byte> := [0x80, 0, 0, 0, 0, 0, 2, 0]
  const HAS_ONE := Core(true, [7], 1, false, false)

  /** The flag is set in reachable states: a request answered with a short packet leaves it so. */
  lemma ShortFlagReachable(c: Ctrl)
    requires Inv(c)
    ensures var es := [SetupPacket(ASK_TWO, HAS_ONE), TX_DONE, OutPacket([])];
            AllOk(es) && Run(c, es).stage.Setup? && Run(c, es).short
  {
    var es := [SetupPacket(ASK_TWO, HAS_ONE), TX_DONE, OutPacket([])];
    assert es[..2][..1] == es[..1] && es[..1][..0] == [];
    assert Run(c, es[..0]) == c;
    var s := Step(c, es[0]);
    assert Run(c, es[..1]) == s && s.stage.DataIn? && s.short && s.irq.tx && s.cnt == s.req.size == 1;
    TxStep(s);
    assert Run(c, es[..2]) == Step(s, TX_DONE);
  }

  // ----- OUT -----

  /** A host that sends `d` in packets of 64 bytes for as long as the data stage lasts. */
  function HostSends(c: Ctrl, d: seq<Byte>): Ctrl
    requires c.stage.DataOut? ==> c.Bounded()
    decreases |d|
  {
    if d == [] || !c.stage.DataOut? then c
    else
      var k := Min(64, |d|);
      var c1 := Step(c, OutPacket(d[..k]));
      if c1.stage.DataOut? && !c1.Bounded() then c1 else HostSends(c1, d[k..])
  }

  /** The OUT data stage after `a` bytes, a multiple of 64, with `d` still to come. */
  predicate OutAt(c: Ctrl, a: nat, d: seq<Byte>) {
    && c.stage.DataOut? && !c.req.overUnder && c.Bounded()
    && c.cnt == a && c.prev == 0 && a % 64 == 0
    && c.req.wLength == a + |d| && d != []
    && (a > 0 ==> a < c.req.size)
  }

  /** An OUT packet of the data stage is one call of `OutData`. */
  lemma OutPacketStep(c: Ctrl, data: seq<Byte>)
    requires c.stage.DataOut? && c.Bounded() && |data| <= 64
    ensures EventOk(OutPacket(data))
    ensures Step(c, OutPacket(data)) == OutData(c.(irq := c.irq.(nakIn := false, nakOut := false)), data, Refuse)
  {
  }

  /** No callback was called or registered, and a status packet that is due has its interrupt. */
  predicate SameCalls(c: Ctrl, e: Ctrl) {
    e.calls == c.calls && e.req.callback == c.req.callback && (e.stage.WaitInZlp? ==> e.irq.tx)
  }

  /** `e` is the endpoint after the packet `d[..k]`, cut to what fits, has been stored at `a`. */
  predicate PacketTaken(c: Ctrl, a: nat, d: seq<Byte>, e: Ctrl)
    requires a <= c.req.size <= |c.req.payload|
  {
    var n := Min(Min(64, |d|), c.req.size - a);
    && SameCalls(c, e)
    && e.req.payload == Splice(c.req.payload, a, d[..n])
    && (if n < 64 || |d| == 64
        then e.stage.WaitInZlp? && e.cnt == a + n == e.req.size
        else if c.req.size == a + 64 then e.stage.StallReq? && e.cnt == a + 64
        else OutAt(e, a + 64, d[64..]) && e.req.size == c.req.size)
  }

  lemma OutDataTakes(c: Ctrl, a: nat, d: seq<Byte>)
    requires OutAt(c, a, d)
    ensures PacketTaken(c, a, d, OutData(c, d[..Min(64, |d|)], Refuse))
  {
    var k := Min(64, |d|);
    assert Fitting(c, d[..k]) == d[..Min(k, c.req.size - a)];
  }

  lemma OutStep(c: Ctrl, a: nat, d: seq<Byte>)
    requires OutAt(c, a, d)
    ensures PacketTaken(c, a, d, Step(c, OutPacket(d[..Min(64, |d|)])))
  {
    OutPacketStep(c, d[..Min(64, |d|)]);
    OutDataTakes(c.(irq := c.irq.(nakIn := false, nakOut := false)), a, d);
  }

  /** The endpoint after the host's next packet. */
  function NextOut(c: Ctrl, d: seq<Byte>): Ctrl
    requires c.stage.DataOut? && c.Bounded()
  {
    Step(c, OutPacket(d[..Min(64, |d|)]))
  }

  lemma HostSendsOnce(c: Ctrl, d: seq<Byte>)
    requires c.stage.DataOut? && c.Bounded() && d != []
    ensures var e := NextOut(c, d);
            && (!e.stage.DataOut? ==> HostSends(c, d) == e)
            && (e.stage.DataOut? && e.Bounded() ==> HostSends(c, d) == HostSends(e, d[Min(64, |d|)..]))
  {
  }

  /** The buffer ends inside a packet of the transfer or at its end. */
  predicate TooShort(size: nat, wLength: nat) {
    0 < size < wLength && size % 64 == 0
  }

  lemma NotTooShort(a: nat, size: nat, rest: nat)
    requires a % 64 == 0 && a <= size && (a > 0 ==> a < size) && rest > 0
    requires Min(Min(64, rest), size - a) < 64 || rest == 64
    ensures !TooShort(size, a + rest)
  {
  }

  /** The data stage goes on: a full packet has been stored. */
  lemma OutMore(c: Ctrl, a: nat, d: seq<Byte>)
    requires OutAt(c, a, d) && NextOut(c, d).stage.DataOut?
    ensures var e := NextOut(c, d);
            && |d| > 64 && c.req.size > a + 64 && OutAt(e, a + 64, d[64..])
            && e.req.size == c.req.size && e.req.wLength == c.req.wLength && SameCalls(c, e)
            && e.req.payload == Splice(c.req.payload, a, d[..64])
            && HostSends(c, d) == HostSends(e, d[64..])
  {
    OutStep(c, a, d);
    HostSendsOnce(c, d);
  }

  /** `r` is what a transfer of `d` into the buffer of `c`, from offset `a` on, must end in. */
  predicate Received(c: Ctrl, a: nat, d: seq<Byte>, r: Ctrl)
    requires a <= c.req.size <= |c.req.payload|
  {
    var n := Min(c.req.size - a, |d|);
    && SameCalls(c, r)
    && r.cnt == a + n && r.req.payload == Splice(c.req.payload, a, d[..n])
    && r.stage == if TooShort(c.req.size, c.req.wLength) then StallReq else WaitInZlp
  }

  lemma TakenReceived(c: Ctrl, a: nat, d: seq<Byte>, e: Ctrl)
    requires OutAt(c, a, d) && PacketTaken(c, a, d, e) && !e.stage.DataOut?
    ensures Received(c, a, d, e)
  {
    if Min(Min(64, |d|), c.req.size - a) < 64 || |d| == 64 {
      NotTooShort(a, c.req.size, |d|);
    }
  }

  /** The data stage ends with this packet. */
  lemma OutLast(c: Ctrl, a: nat, d: seq<Byte>)
    requires OutAt(c, a, d) && !NextOut(c, d).stage.DataOut?
    ensures Received(c, a, d, NextOut(c, d)) && HostSends(c, d) == NextOut(c, d)
  {
    OutStep(c, a, d);
    HostSendsOnce(c, d);
    TakenReceived(c, a, d, NextOut(c, d));
  }

  lemma SpliceMore(p: seq<Byte>, a: nat, d: seq<Byte>, m: nat)
    requires 64 + m <= |d| && a + 64 + m <= |p|
    ensures Splice(Splice(p, a, d[..64]), a + 64, d[64..][..m]) == Splice(p, a, d[..64 + m])
  {
    SpliceAdjacent(p, a, d[..64], d[64..][..m]);
    assert d[..64] + d[64..][..m] == d[..64 + m];
  }

  lemma ReceivedMore(c: Ctrl, a: nat, d: seq<Byte>, e: Ctrl, r: Ctrl)
    requires |d| > 64 && a + 64 < c.req.size == e.req.size <= |c.req.payload| && e.req.wLength == c.req.wLength
    requires e.req.payload == Splice(c.req.payload, a, d[..64]) && SameCalls(c, e)
    requires Received(e, a + 64, d[64..], r)
    ensures Received(c, a, d, r)
  {
    SpliceMore(c.req.payload, a, d, Min(c.req.size - a - 64, |d| - 64));
  }

  lemma {:induction false} OutTransferFrom(c: Ctrl, a: nat, d: seq<Byte>)
    requires OutAt(c, a, d)
    ensures Received(c, a, d, HostSends(c, d))
    decreases |d|
  {
    var e := NextOut(c, d);
    if e.stage.DataOut? {
      OutMore(c, a, d);
      OutTransferFrom(e, a + 64, d[64..]);
      ReceivedMore(c, a, d, e, HostSends(c, d));
    } else {
      OutLast(c, a, d);
    }
  }

  /** A request with an OUT data stage opens it with both counters at zero. */
  lemma OutOpens(c: Ctrl, bytes: seq<Byte>, core: Core, d: seq<Byte>)
    requires Inv(c) && |bytes| == 8 && !Decode(bytes).0 && Decode(bytes).1 == |d| > 0
    requires core.ok && core.size <= |core.payload| && !core.overUnder
    ensures var s := Step(c, SetupPacket(bytes, core));
            OutAt(s, 0, d) && s.req.payload == core.payload && s.req.size == core.size
  {
  }

  /** The IN status packet completes an OUT request. */
  lemma OutStatus(c: Ctrl)
    requires c.stage.WaitInZlp? && c.irq.tx
    ensures var r := Step(c, TX_DONE);
            && r.stage.Setup? && r.req.callback.None? && !r.irq.tx && r.req.payload == c.req.payload
            && r.calls == c.calls.(done := c.calls.done + CallbackOf(c))
  {
  }

  /**
   OUT transfer of `wLength` bytes into a buffer of `size` bytes without a refill callback: the
   buffer receives the bytes that fit and no other byte changes; the request is stalled exactly
   when the buffer is too short and its size is a positive multiple of 64, and acknowledged in
   every other case, even when bytes were lost. The status packet then frees the endpoint, and the
   callback of the request has run exactly once.
   */
  lemma OutTransfer(c: Ctrl, bytes: seq<Byte>, core: Core, d: seq<Byte>)
    requires Inv(c) && |bytes| == 8 && !Decode(bytes).0 && Decode(bytes).1 == |d| > 0
    requires core.ok && core.size <= |core.payload| && !core.overUnder
    ensures var s := Step(c, SetupPacket(bytes, core));
            && (s.stage.DataOut? ==> s.Bounded())
            && var r := HostSends(s, d);
               var n := Min(core.size, |d|);
               && r.req.payload == Splice(core.payload, 0, d[..n]) && r.cnt == n
               && (r.stage.StallReq? <==> TooShort(core.size, |d|))
               && (r.stage.WaitInZlp? <==> !TooShort(core.size, |d|))
               && (r.stage.WaitInZlp? ==> CalledOnce(c, core, Step(r, TX_DONE)))
  {
    OutOpens(c, bytes, core, d);
    SetupEndsRequest(c, bytes, core);
    var s := Step(c, SetupPacket(bytes, core));
    OutTransferFrom(s, 0, d);
    var r := HostSends(s, d);
    if r.stage.WaitInZlp? {
      OutStatus(r);
    }
  }

  /** A buffer as long as the request ends up with an exact copy, and the request completes. */
  lemma OutExactCopy(c: Ctrl, bytes: seq<Byte>, core: Core, d: seq<Byte>)
    requires Inv(c) && |bytes| == 8 && !Decode(bytes).0 && Decode(bytes).1 == |d| > 0
    requires core.ok && |d| <= core.size <= |core.payload| && !core.overUnder
    ensures var s := Step(c, SetupPacket(bytes, core));
            && (s.stage.DataOut? ==> s.Bounded())
            && var r := HostSends(s, d);
               && r.stage.WaitInZlp? && r.req.payload == Splice(core.payload, 0, d)
               && CalledOnce(c, core, Step(r, TX_DONE))
  {
    OutTransfer(c, bytes, core, d);
    assert d[..|d|] == d;
  }

  // ----- requests cut short -----

  /** A NAK interrupt and nothing else. */
  function Nak(dirIn: bool): Event {
    Interrupt(Status(false, false, false, !dirIn, dirIn), [], NO_CORE, Refuse, false, false)
  }

  /** `r` is the endpoint once the first `m` bytes of `d` have been stored from offset `a` on. */
  predicate PrefixStored(c: Ctrl, a: nat, d: seq<Byte>, m: nat, r: Ctrl)
    requires m <= |d| && a + m <= |c.req.payload|
  {
    && r.stage.DataOut? && r.Bounded() && r.calls == c.calls && r.req.callback == c.req.callback
    && r.req.payload == Splice(c.req.payload, a, d[..m])
  }

  /** The first packet of a prefix is that of the whole. */
  lemma PrefixPacket(c: Ctrl, a: nat, d: seq<Byte>, m: nat)
    requires OutAt(c, a, d) && 64 <= m < |d| && a + m < c.req.size
    ensures var e := NextOut(c, d);
            && e.stage.DataOut? && e.Bounded() && OutAt(e, a + 64, d[64..]) && SameCalls(c, e)
            && e.req.size == c.req.size && e.req.payload == Splice(c.req.payload, a, d[..64])
            && HostSends(c, d[..m]) == HostSends(e, d[64..][..m - 64])
  {
    assert d[..m][..64] == d[..64] && d[..m][64..] == d[64..][..m - 64];
    OutStep(c, a, d);
    HostSendsOnce(c, d[..m]);
  }

  lemma PrefixMore(c: Ctrl, a: nat, d: seq<Byte>, m: nat, e: Ctrl, r: Ctrl)
    requires 64 <= m <= |d| && a + m <= |c.req.payload| && |e.req.payload| == |c.req.payload|
    requires e.req.payload == Splice(c.req.payload, a, d[..64]) && SameCalls(c, e)
    requires PrefixStored(e, a + 64, d[64..], m - 64, r)
    ensures PrefixStored(c, a, d, m, r)
  {
    SpliceMore(c.req.payload, a, d, m - 64);
  }

  lemma PrefixNone(c: Ctrl, a: nat, d: seq<Byte>)
    requires OutAt(c, a, d)
    ensures PrefixStored(c, a, d, 0, HostSends(c, d[..0]))
  {
    assert d[..0] == [] && Splice(c.req.payload, a, d[..0]) == c.req.payload;
  }

  lemma {:induction false} OutPrefix(c: Ctrl, a: nat, d: seq<Byte>, m: nat)
    requires OutAt(c, a, d) && m % 64 == 0 && m < |d| && (m == 0 || a + m < c.req.size)
    ensures PrefixStored(c, a, d, m, HostSends(c, d[..m]))
    decreases m
  {
    if m == 0 {
      PrefixNone(c, a, d);
    } else {
      PrefixPacket(c, a, d, m);
      var e := NextOut(c, d);
      OutPrefix(e, a + 64, d[64..], m - 64);
      PrefixMore(c, a, d, m, e, HostSends(c, d[..m]));
    }
  }

  /**
   A host that turns to the status stage after some full packets, before it has sent all its data,
   still gets the status packet: the request completes with exactly those bytes stored, and its
   callback has run exactly once.
   */
  lemma EarlyOutStatus(c: Ctrl, bytes: seq<Byte>, core: Core, d: seq<Byte>, m: nat)
    requires Inv(c) && |bytes| == 8 && !Decode(bytes).0 && Decode(bytes).1 == |d| > 0
    requires core.ok && core.size <= |core.payload| && !core.overUnder
    requires m % 64 == 0 && m < |d| && (m == 0 || m < core.size)
    ensures var s := Step(c, SetupPacket(bytes, core));
            && (s.stage.DataOut? ==> s.Bounded())
            && var r := HostSends(s, d[..m]);
               && r.stage.DataOut? && r.Bounded()
               && var t := Step(Step(r, Nak(true)), TX_DONE);
                  CalledOnce(c, core, t) && t.req.payload == Splice(core.payload, 0, d[..m])
  {
    OutOpens(c, bytes, core, d);
    SetupEndsRequest(c, bytes, core);
    var s := Step(c, SetupPacket(bytes, core));
    OutPrefix(s, 0, d, m);
    OutStatus(Step(HostSends(s, d[..m]), Nak(true)));
  }

  /**
   A host that goes on with data in the status stage is stalled; the request stays open until the
   next SETUP packet, which runs its callback, once.
   */
  lemma ExtraDataStalls(c: Ctrl, bytes: seq<Byte>, core: Core)
    requires Inv(c) && (c.stage.WaitInZlp? || c.stage.WaitOutZlp?) && |bytes| <= PACKET
    requires |bytes| == 8 ==> CoreOk(Decode(bytes).0, Decode(bytes).1, core)
    ensures var r := Step(c, Nak(c.stage.WaitOutZlp?));
            && r.irq.stall && r.stage == c.stage && r.calls == c.calls && r.req == c.req
            && (r.InData() ==> r.Bounded())
            && Step(r, SetupPacket(bytes, core)).calls.done == c.calls.done + CallbackOf(c)
  {
    var e := Nak(c.stage.WaitOutZlp?);
    StepInv(c, e);
    SetupEndsRequest(Step(c, e), bytes, core);
  }
}
