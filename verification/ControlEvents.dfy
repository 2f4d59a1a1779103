/** What single interrupts of the control endpoint do: decoding, priority, protocol errors and refills, on the fields. */
module ControlEvents {
  import opened Machine
  import opened Control
  import opened ControlProofs

  // ----- SETUP packets -----

  /**
   The fields after a SETUP packet of eight bytes: the length is little-endian in the last two bytes,
   the direction is the top bit of the first one, and the core decides between stall and data stage.
   */
  predicate SetupRead(bytes: seq<Byte>, core: Core, r: Ctrl)
    requires |bytes| == 8
  {
    && r.req.wLength % 0x100 == bytes[6] && r.req.wLength / 0x100 == bytes[7]
    && (r.req.isIn <==> bytes[0] / 0x80 == 1) && r.req.overUnder == core.overUnder
    && (!core.ok ==> r.stage.StallReq? && r.irq.stall)
    && (core.ok && bytes[0] / 0x80 == 1 ==> r.stage.DataIn? || r.stage.WaitOutZlp?)
    && (core.ok && bytes[0] / 0x80 == 0 && bytes[6] == bytes[7] == 0 ==> r.stage.WaitInZlp? && r.irq.tx && r.irq.nakOut)
    && (core.ok && bytes[0] / 0x80 == 0 && (bytes[6] > 0 || bytes[7] > 0) ==>
          && r.stage.DataOut? && r.irq.nakIn && r.prev == r.cnt == 0
          && r.req.payload == core.payload && r.req.size == core.size)
  }

  lemma AcceptReads(c: Ctrl, bytes: seq<Byte>, core: Core)
    requires |bytes| == 8
    ensures var r := Accept(c, Decode(bytes).0, Decode(bytes).1, core);
            && r.req.wLength % 0x100 == bytes[6] && r.req.wLength / 0x100 == bytes[7]
            && (r.req.isIn <==> bytes[0] / 0x80 == 1) && r.req.overUnder == core.overUnder
            && r.req.payload == core.payload && r.req.size == core.size
  {
  }

  lemma InSentKeepsRequest(c: Ctrl, a: Answer, outNow: bool)
    requires c.stage.DataIn? && c.Bounded() && AnswerOk(a)
    ensures var r := InSent(c, a, outNow);
            && r.req.wLength == c.req.wLength && r.req.isIn == c.req.isIn && r.req.overUnder == c.req.overUnder
            && (r.stage.DataIn? || r.stage.WaitOutZlp?)
  {
    ContinueIs(c.(irq := c.irq.(tx := false)), a, outNow);
  }

  lemma SetupReads(c: Ctrl, bytes: seq<Byte>, core: Core, a: Answer, outNow: bool)
    requires |bytes| == 8 && CoreOk(Decode(bytes).0, Decode(bytes).1, core) && AnswerOk(a)
    ensures SetupRead(bytes, core, SetupReceived(c, bytes, core, a, outNow))
  {
    var d := Accept(Reopened(c), Decode(bytes).0, Decode(bytes).1, core);
    AcceptReads(Reopened(c), bytes, core);
    if core.ok && d.req.isIn {
      InSentKeepsRequest(d.(prev := 0, cnt := 0, stage := DataIn), a, outNow);
    }
  }

  /** A SETUP packet of another size, and any request the core rejects, is stalled. */
  lemma SetupStalls(c: Ctrl, bytes: seq<Byte>, core: Core, a: Answer, outNow: bool)
    requires |bytes| == 8 ==> CoreOk(Decode(bytes).0, Decode(bytes).1, core)
    requires AnswerOk(a)
    ensures var r := SetupReceived(c, bytes, core, a, outNow);
            |bytes| != 8 || !core.ok <==> r.stage.StallReq?
    ensures |bytes| != 8 ==> SetupReceived(c, bytes, core, a, outNow).irq.stall
  {
    if |bytes| == 8 {
      SetupReads(c, bytes, core, a, outNow);
    }
  }

  /** The short-packet flag is static: only a packet of an IN data stage changes it, no OUT request and no reset. */
  lemma FlagIsStatic(c: Ctrl, e: Event)
    requires Stages(c) && EventOk(e)
    ensures Step(c, e).short != c.short ==>
              Step(c, e).req.isIn && e.Interrupt? && (e.st.setup || (c.stage.DataIn? && CallsInSent(c, e)))
  {
    if e.Interrupt? && e.st.setup {
      var c1 := c.(irq := c.irq.(nakIn := false, nakOut := false, stall := false));
      if |e.fifo| == 8 {
        SetupReads(c1, e.fifo, e.core, e.answer, e.outNow);
        AcceptReads(Reopened(c1), e.fifo, e.core);
      }
    }
  }

  // ----- priority -----

  /** The one cause an interrupt serves. */
  function Served(st: Status, tx: bool): Status {
    if st.setup then Status(true, false, false, false, false)
    else if st.inSent && tx then Status(false, true, false, false, false)
    else if st.outReceived then Status(false, false, true, false, false)
    else if st.nakOut then Status(false, false, false, true, false)
    else if st.nakIn then Status(false, false, false, false, true)
    else Status(false, false, false, false, false)
  }

  /**
   One interrupt serves one cause: SETUP before TX-complete before OUT before the NAKs. A TX-complete
   status counts only while its interrupt is enabled.
   */
  lemma OneCause(c: Ctrl, e: Event)
    requires Stages(c) && EventOk(e) && e.Interrupt?
    ensures EventOk(e.(st := Served(e.st, c.irq.tx)))
    ensures Step(c, e) == Step(c, e.(st := Served(e.st, c.irq.tx)))
  {
  }

  /** An interrupt without a cause only withdraws the NAK interrupts. */
  lemma NoCause(c: Ctrl, e: Event)
    requires Stages(c) && EventOk(e) && e.Interrupt? && Served(e.st, c.irq.tx) == Status(false, false, false, false, false)
    ensures Step(c, e) == c.(irq := c.irq.(nakIn := false, nakOut := false))
  {
  }

  // ----- protocol errors -----

  /** The first packet of an IN data stage is on its way, or there is none and the status packet is due. */
  lemma InSentGuards(c: Ctrl, a: Answer)
    requires c.stage.DataIn? && c.Bounded() && AnswerOk(a)
    ensures var r := InSent(c, a, false);
            (r.stage.DataIn? && r.irq.tx) || (r.stage.WaitOutZlp? && r.irq.nakIn)
  {
    ContinueIs(c.(irq := c.irq.(tx := false)), a, false);
  }

  lemma SetupGuards(c: Ctrl, bytes: seq<Byte>, core: Core, a: Answer)
    requires |bytes| == 8 ==> CoreOk(Decode(bytes).0, Decode(bytes).1, core)
    requires AnswerOk(a) && !c.irq.nakIn && !c.irq.nakOut
    ensures var r := SetupReceived(c, bytes, core, a, false);
            && (r.stage.WaitInZlp? ==> r.irq.tx && r.irq.nakOut)
            && (r.stage.WaitOutZlp? || r.stage.DataOut? ==> r.irq.nakIn)
            && (r.stage.StallReq? ==> r.irq.stall)
            && (r.stage.DataIn? ==> r.irq.tx)
  {
    if |bytes| == 8 && core.ok && Decode(bytes).0 {
      var d := Accept(Reopened(c), true, Decode(bytes).1, core);
      InSentGuards(d.(prev := 0, cnt := 0, stage := DataIn), a);
    }
  }

  /**
   Whenever the data or the status stage goes on with the host to move, the NAK interrupt that shows a
   host doing something else is enabled; after an abort of the IN data stage it is not needed.
   */
  lemma NakGuards(c: Ctrl, e: Event)
    requires Stages(c) && EventOk(e) && e.Interrupt? && !e.outNow
    ensures var r := Step(c, e);
            && (r.stage.WaitInZlp? && !c.stage.WaitInZlp? ==> r.irq.tx && r.irq.nakOut)
            && (r.stage.WaitOutZlp? && !c.stage.WaitOutZlp? ==> r.irq.nakIn)
            && (r.stage.DataOut? && (e.st.setup || e.st.outReceived) ==> r.irq.nakIn)
            && (r.stage.StallReq? && !c.stage.StallReq? ==> r.irq.stall)
            && (r.stage.DataIn? && !c.stage.DataIn? ==> r.irq.tx)
  {
    if e.st.setup {
      var c1 := c.(irq := c.irq.(nakIn := false, nakOut := false, stall := false));
      SetupGuards(c1, e.fifo, e.core, e.answer);
    }
  }

  /** An OUT packet nobody waits for is stalled, and the request is forgotten without its callback. */
  lemma StrayOutForgets(c: Ctrl, e: Event)
    requires Stages(c) && Callbacks(c) && EventOk(e) && e.Interrupt?
    requires Served(e.st, c.irq.tx) == Status(false, false, true, false, false)
    requires c.stage.Setup? || c.stage.StallReq? || c.stage.WaitInZlp?
    ensures var r := Step(c, e);
            && r.stage.Setup? && r.irq.stall && !r.irq.tx && r.req.callback.None?
            && r.calls.done == c.calls.done && r.calls.registered == c.calls.registered
            && r.calls.dropped == c.calls.dropped + if c.req.callback.Some? then 1 else 0
  {
  }

  /** An OUT packet in the IN data stage or its status stage completes the request, early or not. */
  lemma OutCompletes(c: Ctrl, e: Event)
    requires Stages(c) && Callbacks(c) && EventOk(e) && e.Interrupt?
    requires Served(e.st, c.irq.tx) == Status(false, false, true, false, false)
    requires c.stage.DataIn? || c.stage.WaitOutZlp?
    ensures var r := Step(c, e);
            && r.stage.Setup? && r.irq.stall == c.irq.stall && !r.irq.tx && r.req.callback.None?
            && r.calls.dropped == c.calls.dropped
            && r.calls.done == c.calls.done + if c.req.callback.Some? then [c.req.callback.value] else []
  {
  }

  /** A bus reset forgets the request without its callback. */
  lemma ResetForgets(c: Ctrl)
    requires Stages(c) && Callbacks(c)
    ensures var r := Step(c, BusReset);
            && r.stage.Setup? && !r.irq.tx && r.req.callback.None? && r.calls.done == c.calls.done
            && r.calls.dropped == c.calls.dropped + if c.req.callback.Some? then 1 else 0
  {
  }

  /** A second reading that shows the other event pending leaves the protocol error alone. */
  lemma NakIgnored(c: Ctrl, e: Event)
    requires Stages(c) && EventOk(e) && e.Interrupt?
    requires (Served(e.st, c.irq.tx).nakIn && e.outNow) || (Served(e.st, c.irq.tx).nakOut && e.inNow)
    ensures Step(c, e) == c.(irq := c.irq.(nakIn := false, nakOut := false))
  {
  }

  /** An OUT packet that is there already when the next IN packet is due ends the IN data stage: nothing more is sent. */
  lemma HostEndsIn(c: Ctrl, e: Event)
    requires Inv(c) && EventOk(e) && c.stage.DataIn? && CallsInSent(c, e) && e.outNow
    ensures var r := Step(c, e); r.stage.WaitOutZlp? && r.log.packets == c.log.packets && !r.irq.tx && r.calls == c.calls
  {
    ContinueIs(c.(irq := c.irq.(tx := false, nakIn := false, nakOut := false)), e.answer, true);
  }

  // ----- OUT data stages with refills -----

  /** The OUT bytes of the request in progress. */
  function Received(c: Ctrl): seq<Byte>
    requires c.cnt <= |c.req.payload|
  {
    c.log.offered + c.req.payload[..c.cnt]
  }

  predicate IsOut(c: Ctrl, e: Event) {
    e.Interrupt? && Served(e.st, c.irq.tx) == Status(false, false, true, false, false)
  }

  /** The bytes of a packet that fit. */
  function Taken(c: Ctrl, data: seq<Byte>): nat
    requires c.Bounded()
  {
    Min(|data|, c.req.size - c.cnt)
  }

  /** The packet is cut or short, or the request has all its bytes, counted in 16 bits for the buffers before this one. */
  predicate LastPacket(c: Ctrl, data: seq<Byte>)
    requires c.Bounded()
  {
    Taken(c, data) != PACKET || c.req.wLength <= Wrap16(|c.log.offered|) + c.cnt + PACKET
  }

  /** What an OUT packet of the data stage leads to. */
  predicate OutOutcome(p: Ctrl, e: Event, r: Ctrl)
    requires p.Bounded() && e.Interrupt?
  {
    var n := Taken(p, e.fifo);
    var granted := p.req.overUnder && !e.answer.Refuse?;
    if LastPacket(p, e.fifo) then
      r.stage == (if p.req.overUnder && e.answer.Refuse? then StallReq else WaitInZlp)
    else if p.cnt + n < p.req.size then
      && r.stage.DataOut? && r.cnt == p.cnt + n && r.req.size == p.req.size
    else if granted then
      && r.stage.DataOut? && r.cnt == 0
      && (e.answer.Supply? ==> r.req.payload == e.answer.payload && r.req.size == e.answer.size)
    else r.stage.StallReq?
  }

  lemma CopiedReceives(p: Ctrl, data: seq<Byte>)
    requires p.Bounded()
    ensures var c1 := Copied(p, data);
            && c1.cnt == p.cnt + Taken(p, data) && c1.cnt <= |c1.req.payload|
            && Received(c1) == Received(p) + data[..Taken(p, data)]
  {
    var c1, n := Copied(p, data), Taken(p, data);
    assert Fitting(p, data) == data[..n];
    assert c1.req.payload[..p.cnt + n] == p.req.payload[..p.cnt] + data[..n];
  }

  lemma OutDataStage(p: Ctrl, e: Event)
    requires Inv(p) && EventOk(e) && p.stage.DataOut? && IsOut(p, e)
    ensures var r := Step(p, e);
            && OutOutcome(p, e, r)
            && (r.stage.DataOut? ==> r.cnt <= |r.req.payload| && Received(r) == Received(p) + e.fifo)
  {
    var c := p.(irq := p.irq.(nakIn := false, nakOut := false));
    CopiedReceives(c, e.fifo);
    assert Step(p, e) == OutData(c, e.fifo, e.answer);
    if Taken(p, e.fifo) == PACKET {
      assert e.fifo[..PACKET] == e.fifo;
    }
  }

  /**
   Over any run, refills included: an OUT packet ends the data stage exactly when it is short or does
   not fit, or the request has all its bytes; the callback of the core may turn that into a stall. A
   buffer that is full before is replaced by the next one the callback grants, and without one the
   request is stalled. As long as the data stage goes on, no byte is lost between the buffers.
   */
  lemma OutStageEnds(c: Ctrl, es: seq<Event>, e: Event)
    requires Inv(c) && AllOk(es) && EventOk(e) && Run(c, es).stage.DataOut? && IsOut(Run(c, es), e)
    ensures var p := Run(c, es);
            && p.Bounded()
            && var r := Step(p, e);
               && OutOutcome(p, e, r)
               && (r.stage.DataOut? ==> r.cnt <= |r.req.payload| && Received(r) == Received(p) + e.fifo)
  {
    RunInv(c, es);
    OutDataStage(Run(c, es), e);
  }

  /** Nothing but OUT packets, whatever the core answers to each. */
  predicate OutOnly(es: seq<Event>) {
    forall i :: 0 <= i < |es| ==> es[i].Interrupt? && es[i].st == Status(false, false, true, false, false)
  }

  /** The bytes of these packets. */
  function Sent(es: seq<Event>): seq<Byte>
    requires OutOnly(es)
  {
    if es == [] then [] else Sent(es[..|es| - 1]) + es[|es| - 1].fifo
  }

  /** Without a SETUP packet nothing leads back into the OUT data stage. */
  lemma LeftForGood(c: Ctrl, e: Event)
    requires Stages(c) && EventOk(e) && e.Interrupt? && !e.st.setup && !c.stage.DataOut?
    ensures !Step(c, e).stage.DataOut?
  {
  }

  /** A packet the data stage goes on after joins those received. */
  lemma OutJoins(p: Ctrl, e: Event)
    requires Inv(p) && EventOk(e) && e.Interrupt? && e.st == Status(false, false, true, false, false)
    ensures var r := Step(p, e);
            r.stage.DataOut? ==>
              && p.stage.DataOut? && p.Bounded()
              && r.cnt <= |r.req.payload| && Received(r) == Received(p) + e.fifo
  {
    if p.stage.DataOut? {
      OutDataStage(p, e);
    } else {
      LeftForGood(p, e);
    }
  }

  lemma SentNext(s: seq<Byte>, es: seq<Event>)
    requires OutOnly(es) && es != []
    ensures s + Sent(es) == s + Sent(es[..|es| - 1]) + es[|es| - 1].fifo
  {
  }

  /**
   OUT packets in a row, through any number of buffers: if the data stage is still going on, the
   buffers together hold exactly what they held before and the bytes of the packets.
   */
  lemma {:induction false} RefilledOut(c: Ctrl, es: seq<Event>)
    requires Inv(c) && AllOk(es) && OutOnly(es) && c.stage.DataOut?
    ensures var r := Run(c, es);
            r.stage.DataOut? ==> r.cnt <= |r.req.payload| && Received(r) == Received(c) + Sent(es)
  {
    if es == [] {
      assert Received(c) + Sent(es) == Received(c);
    } else {
      var k := |es| - 1;
      RefilledOut(c, es[..k]);
      RunInv(c, es[..k]);
      OutJoins(Run(c, es[..k]), es[k]);
      if Run(c, es[..k]).stage.DataOut? {
        SentNext(Received(c), es);
      }
    }
  }
}
