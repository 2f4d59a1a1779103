/** What every run of the control endpoint keeps. */
module ControlProofs {
  import opened Machine
  import opened Control

  // ----- stages, directions and interrupt enables -----

  lemma StagesInSent(c: Ctrl, a: Answer, outNow: bool)
    requires Stages(c) && AnswerOk(a)
    ensures Stages(InSent(c, a, outNow))
  {
  }

  lemma StagesOut(c: Ctrl, data: seq<Byte>, a: Answer)
    requires Stages(c) && |data| <= PACKET && AnswerOk(a)
    ensures Stages(OutReceived(c, data, a))
  {
  }

  lemma StagesBegin(c: Ctrl, a: Answer, outNow: bool)
    requires AnswerOk(a) && c.req.size <= |c.req.payload| && !c.irq.tx && (c.req.isIn ==> c.req.wLength > 0)
    ensures Stages(Begin(c, a, outNow))
  {
    if c.req.isIn {
      StagesInSent(c.(prev := 0, cnt := 0, stage := DataIn), a, outNow);
    }
  }

  lemma StagesSetup(c: Ctrl, bytes: seq<Byte>, core: Core, a: Answer, outNow: bool)
    requires Stages(c) && AnswerOk(a)
    requires |bytes| == 8 ==> CoreOk(Decode(bytes).0, Decode(bytes).1, core)
    ensures Stages(SetupReceived(c, bytes, core, a, outNow))
  {
    if |bytes| == 8 && core.ok {
      StagesBegin(Accept(Reopened(c), Decode(bytes).0, Decode(bytes).1, core), a, outNow);
    }
  }

  lemma StagesStep(c: Ctrl, e: Event)
    requires Stages(c) && EventOk(e)
    ensures Stages(Step(c, e))
  {
    if e.Interrupt? {
      var c1 := c.(irq := c.irq.(nakIn := false, nakOut := false));
      if e.st.setup {
        StagesSetup(c1.(irq := c1.irq.(stall := false)), e.fifo, e.core, e.answer, e.outNow);
      } else if CallsInSent(c, e) {
        StagesInSent(c1, e.answer, e.outNow);
      } else if e.st.outReceived {
        StagesOut(c1, e.fifo, e.answer);
      }
    }
  }

  // ----- completion callbacks -----

  lemma LedgerEnds(c: Ctrl)
    requires Ledger(c.req.callback, c.calls)
    ensures Ledger(None, EndOfRequest(c).calls) && Ledger(None, Drop(c).calls)
  {
  }

  lemma CallbacksInSent(c: Ctrl, a: Answer, outNow: bool)
    requires (c.stage.DataIn? ==> c.Bounded()) && Callbacks(c) && AnswerOk(a)
    ensures Callbacks(InSent(c, a, outNow))
  {
    if c.stage.WaitInZlp? {
      LedgerEnds(c);
    }
  }

  lemma CallbacksOut(c: Ctrl, data: seq<Byte>, a: Answer)
    requires Stages(c) && Callbacks(c) && |data| <= PACKET && AnswerOk(a)
    ensures Callbacks(OutReceived(c, data, a))
  {
    if !c.stage.DataOut? {
      LedgerEnds(c);
    }
  }

  lemma CallbacksReopened(c: Ctrl)
    requires Callbacks(c)
    ensures Ledger(None, Reopened(c).calls) && Reopened(c).req.callback.None?
  {
    LedgerEnds(c);
  }

  lemma CallbacksAccept(c: Ctrl, isIn: bool, wLength: HalfWord, core: Core)
    requires Ledger(None, c.calls)
    ensures var d := Accept(c, isIn, wLength, core); Ledger(d.req.callback, d.calls)
  {
  }

  lemma CallbacksBegin(c: Ctrl, a: Answer, outNow: bool)
    requires Ledger(c.req.callback, c.calls) && AnswerOk(a) && c.req.size <= |c.req.payload|
    ensures Callbacks(Begin(c, a, outNow))
  {
    if c.req.isIn {
      CallbacksInSent(c.(prev := 0, cnt := 0, stage := DataIn), a, outNow);
    }
  }

  lemma CallbacksSetup(c: Ctrl, bytes: seq<Byte>, core: Core, a: Answer, outNow: bool)
    requires Callbacks(c) && AnswerOk(a)
    requires |bytes| == 8 ==> CoreOk(Decode(bytes).0, Decode(bytes).1, core)
    ensures Callbacks(SetupReceived(c, bytes, core, a, outNow))
  {
    CallbacksReopened(c);
    var c0 := Reopened(c);
    if |bytes| == 8 {
      var (isIn, wLength) := Decode(bytes);
      CallbacksAccept(c0, isIn, wLength, core);
      if core.ok {
        CallbacksBegin(Accept(c0, isIn, wLength, core), a, outNow);
      }
    }
  }

  lemma CallbacksStep(c: Ctrl, e: Event)
    requires Stages(c) && Callbacks(c) && EventOk(e)
    ensures Callbacks(Step(c, e))
  {
    if e.BusReset? {
      LedgerEnds(c);
    } else {
      var c1 := c.(irq := c.irq.(nakIn := false, nakOut := false));
      if e.st.setup {
        CallbacksSetup(c1.(irq := c1.irq.(stall := false)), e.fifo, e.core, e.answer, e.outNow);
      } else if CallsInSent(c, e) {
        CallbacksInSent(c1, e.answer, e.outNow);
      } else if e.st.outReceived {
        CallbacksOut(c1, e.fifo, e.answer);
      }
    }
  }

  // ----- OUT payload buffer -----

  lemma BufferRefilled(c: Ctrl, a: Answer)
    requires c.Bounded() && c.cnt == c.req.size && c.stage.DataIn? && Buffer(c) && AnswerOk(a)
    ensures Buffer(Refilled(c, a))
  {
  }

  lemma BufferInSent(c: Ctrl, a: Answer, outNow: bool)
    requires (c.stage.DataIn? ==> c.Bounded()) && Buffer(c) && AnswerOk(a)
    ensures Buffer(InSent(c, a, outNow))
  {
    if c.stage.DataIn? && c.req.size == c.cnt {
      BufferRefilled(c.(irq := c.irq.(tx := false), prev := Wrap16(c.prev + c.cnt)), a);
    }
  }

  /** Copying a packet keeps every byte outside the stored range. */
  lemma BufferCopied(c: Ctrl, data: seq<Byte>)
    requires c.Bounded() && Buffer(c) && c.stage.DataOut?
    ensures Buffer(Copied(c, data))
  {
    var d := Fitting(c, data);
    var p := c.req.payload;
    assert p[..c.cnt] == c.log.got;
    assert p[c.cnt + |d|..] == c.log.base[c.cnt + |d|..];
  }

  lemma BufferOut(c: Ctrl, data: seq<Byte>, a: Answer)
    requires Stages(c) && Buffer(c) && |data| <= PACKET && AnswerOk(a)
    ensures Buffer(OutReceived(c, data, a))
  {
    if c.stage.DataOut? {
      BufferCopied(c, data);
    }
  }

  lemma BufferBegin(c: Ctrl, a: Answer, outNow: bool)
    requires Buffer(c.(stage := Setup)) && c.log.got == [] && AnswerOk(a) && c.req.size <= |c.req.payload|
    requires !c.irq.tx
    ensures Buffer(Begin(c, a, outNow))
  {
    if c.req.isIn {
      BufferInSent(c.(prev := 0, cnt := 0, stage := DataIn), a, outNow);
    }
  }

  lemma BufferSetup(c: Ctrl, bytes: seq<Byte>, core: Core, a: Answer, outNow: bool)
    requires Stages(c) && Buffer(c) && AnswerOk(a)
    requires |bytes| == 8 ==> CoreOk(Decode(bytes).0, Decode(bytes).1, core)
    ensures Buffer(SetupReceived(c, bytes, core, a, outNow))
  {
    if |bytes| == 8 {
      var c1 := Accept(Reopened(c), Decode(bytes).0, Decode(bytes).1, core);
      assert Buffer(c1.(stage := Setup)) && Buffer(StallData(c1));
      if core.ok {
        BufferBegin(c1, a, outNow);
      }
    }
  }

  lemma BufferStep(c: Ctrl, e: Event)
    requires Stages(c) && Buffer(c) && EventOk(e)
    ensures Buffer(Step(c, e))
  {
    if e.Interrupt? {
      var c1 := c.(irq := c.irq.(nakIn := false, nakOut := false));
      if e.st.setup {
        BufferSetup(c1.(irq := c1.irq.(stall := false)), e.fifo, e.core, e.answer, e.outNow);
      } else if CallsInSent(c, e) {
        BufferInSent(c1, e.answer, e.outNow);
      } else if e.st.outReceived {
        BufferOut(c1, e.fifo, e.answer);
      }
    }
  }

  // ----- IN packets -----

  lemma PacketsNext(l: Log, req: Request, cnt: nat, p: seq<Byte>)
    requires Packets(l, req, cnt) && cnt + |p| <= |req.payload| && p == req.payload[cnt..cnt + |p|]
    requires l.packets != [] ==> |l.packets[|l.packets| - 1]| == PACKET
    ensures Packets(l.(packets := l.packets + [p]), req, cnt + |p|)
  {
    var ps := l.packets + [p];
    assert ps[..|ps| - 1] == l.packets;
    assert req.payload[..cnt] + p == req.payload[..cnt + |p|];
  }

  lemma SendingPacket(c: Ctrl, outNow: bool)
    requires c.Bounded() && Sending(c) && c.stage.DataIn?
    requires c.log.packets != [] ==> !c.short
    ensures Sending(SendPacket(c, outNow))
  {
    if !outNow {
      PacketsNext(c.log, c.req, c.cnt, NextPacket(c));
    }
  }

  lemma SendingRefilled(c: Ctrl, a: Answer)
    requires c.Bounded() && c.cnt == c.req.size && Sending(c) && AnswerOk(a) && c.stage.DataIn?
    requires c.log.packets != [] ==> !c.short
    ensures var d := Refilled(c, a); Sending(d) && d.stage.DataIn? && (d.log.packets != [] ==> !d.short)
  {
  }

  lemma SendingUsedUp(c: Ctrl, a: Answer, outNow: bool)
    requires c.Bounded() && c.cnt == c.req.size && Sending(c) && AnswerOk(a) && c.stage.DataIn? && !c.short
    ensures Sending(SendPacket(Refilled(c, a), outNow))
  {
    SendingRefilled(c, a);
    SendingPacket(Refilled(c, a), outNow);
  }

  /** The three ways the IN data stage goes on. */
  lemma ContinueIs(c: Ctrl, a: Answer, outNow: bool)
    requires c.Bounded() && AnswerOk(a)
    ensures var c2 := c.(prev := Wrap16(c.prev + c.cnt));
            InContinue(c, a, outNow) ==
            if c.req.size != c.cnt then SendPacket(c, outNow)
            else if c.req.wLength == c2.prev || c.short then SendZlpOut(c2)
            else SendPacket(Refilled(c2, a), outNow)
  {
  }

  lemma SendingEnds(c: Ctrl)
    requires Sending(c) && c.stage.DataIn?
    ensures Sending(SendZlpOut(c))
  {
  }

  lemma SendingContinue(c: Ctrl, a: Answer, outNow: bool)
    requires c.Bounded() && Sending(c) && AnswerOk(a) && c.stage.DataIn?
    ensures Sending(InContinue(c, a, outNow))
  {
    ContinueIs(c, a, outNow);
    if c.req.size != c.cnt {
      SendingPacket(c, outNow);
    } else {
      var c2 := c.(prev := Wrap16(c.prev + c.cnt));
      assert Sending(c2);
      if c.req.wLength == c2.prev || c.short {
        SendingEnds(c2);
      } else {
        SendingUsedUp(c2, a, outNow);
      }
    }
  }

  lemma SendingInSent(c: Ctrl, a: Answer, outNow: bool)
    requires Stages(c) && Sending(c) && AnswerOk(a)
    ensures Sending(InSent(c, a, outNow))
  {
    if c.stage.DataIn? {
      SendingContinue(c.(irq := c.irq.(tx := false)), a, outNow);
    }
  }

  lemma SendingOut(c: Ctrl, data: seq<Byte>, a: Answer)
    requires Stages(c) && Sending(c) && |data| <= PACKET && AnswerOk(a)
    ensures Sending(OutReceived(c, data, a))
  {
  }

  lemma SendingSetup(c: Ctrl, bytes: seq<Byte>, core: Core, a: Answer, outNow: bool)
    requires Stages(c) && Sending(c) && AnswerOk(a)
    requires |bytes| == 8 ==> CoreOk(Decode(bytes).0, Decode(bytes).1, core)
    ensures Sending(SetupReceived(c, bytes, core, a, outNow))
  {
    if |bytes| == 8 && core.ok && Decode(bytes).0 {
      var c1 := Accept(Reopened(c), true, Decode(bytes).1, core);
      var c2 := c1.(prev := 0, cnt := 0, stage := DataIn);
      assert Stages(c2) && Sending(c2);
      SendingInSent(c2, a, outNow);
    }
  }

  lemma SendingStep(c: Ctrl, e: Event)
    requires Stages(c) && Sending(c) && EventOk(e)
    ensures Sending(Step(c, e))
  {
    if e.Interrupt? {
      var c1 := c.(irq := c.irq.(nakIn := false, nakOut := false));
      if e.st.setup {
        SendingSetup(c1.(irq := c1.irq.(stall := false)), e.fifo, e.core, e.answer, e.outNow);
      } else if CallsInSent(c, e) {
        SendingInSent(c1, e.answer, e.outNow);
      } else if e.st.outReceived {
        SendingOut(c1, e.fifo, e.answer);
      }
    }
  }

  // ----- the byte count of the IN data stage -----

  lemma WrapSum(a: nat, b: nat)
    ensures Wrap16(Wrap16(a) + b) == Wrap16(a + b)
  {
  }

  /** The bytes of a buffer that is used up join those counted. */
  lemma SummedRefilled(c: Ctrl, a: Answer, outNow: bool)
    requires c.Bounded() && c.cnt == c.req.size && AnswerOk(a) && c.prev == Wrap16(|c.log.offered| + c.cnt)
    requires c.stage.DataIn?
    ensures Summed(SendPacket(Refilled(c, a), outNow))
  {
    if !c.req.overUnder || a.Refuse? {
      assert Refilled(c, a) == c && NextPacket(c) == [];
    }
  }

  lemma SummedContinue(c: Ctrl, a: Answer, outNow: bool)
    requires c.Bounded() && Sending(c) && Counting(c) && AnswerOk(a) && c.stage.DataIn?
    ensures Summed(InContinue(c, a, outNow))
  {
    ContinueIs(c, a, outNow);
    WrapSum(|c.log.offered|, c.cnt);
    var c2 := c.(prev := Wrap16(c.prev + c.cnt));
    if c.req.size == c.cnt && c.req.wLength != c2.prev && !c.short {
      SummedRefilled(c2, a, outNow);
    }
  }

  lemma SummedInSent(c: Ctrl, a: Answer, outNow: bool)
    requires Stages(c) && Sending(c) && AnswerOk(a) && if c.stage.DataIn? then Counting(c) else Summed(c)
    ensures Summed(InSent(c, a, outNow))
  {
    if c.stage.DataIn? {
      SummedContinue(c.(irq := c.irq.(tx := false)), a, outNow);
    }
  }

  lemma SummedOut(c: Ctrl, data: seq<Byte>, a: Answer)
    requires Stages(c) && Summed(c) && |data| <= PACKET && AnswerOk(a)
    ensures Summed(OutReceived(c, data, a))
  {
    if c.stage.DataOut? {
      var c1 := Copied(c, data);
      WrapSum(|c.log.offered|, c1.cnt);
    }
  }

  lemma SummedSetup(c: Ctrl, bytes: seq<Byte>, core: Core, a: Answer, outNow: bool)
    requires Stages(c) && Summed(c) && AnswerOk(a)
    requires |bytes| == 8 ==> CoreOk(Decode(bytes).0, Decode(bytes).1, core)
    ensures Summed(SetupReceived(c, bytes, core, a, outNow))
  {
    if |bytes| == 8 && core.ok && Decode(bytes).0 {
      var c1 := Accept(Reopened(c), true, Decode(bytes).1, core);
      var c2 := c1.(prev := 0, cnt := 0, stage := DataIn);
      assert Stages(c2) && Sending(c2) && Counting(c2);
      SummedInSent(c2, a, outNow);
    }
  }

  lemma SummedStep(c: Ctrl, e: Event)
    requires Stages(c) && Sending(c) && Summed(c) && EventOk(e)
    ensures Summed(Step(c, e))
  {
    if e.Interrupt? {
      var c1 := c.(irq := c.irq.(nakIn := false, nakOut := false));
      if e.st.setup {
        SummedSetup(c1.(irq := c1.irq.(stall := false)), e.fifo, e.core, e.answer, e.outNow);
      } else if CallsInSent(c, e) {
        SummedInSent(c1, e.answer, e.outNow);
      } else if e.st.outReceived {
        SummedOut(c1, e.fifo, e.answer);
      }
    }
  }

  // ----- whole runs -----

  lemma StepInv(c: Ctrl, e: Event)
    requires Inv(c) && EventOk(e)
    ensures Inv(Step(c, e))
  {
    StagesStep(c, e);
    CallbacksStep(c, e);
    BufferStep(c, e);
    SendingStep(c, e);
    SummedStep(c, e);
  }

  /** Every reachable state satisfies the five invariants, whatever the host, the core and the bus do. */
  lemma {:induction false} RunInv(c: Ctrl, es: seq<Event>)
    requires Inv(c) && AllOk(es)
    ensures Inv(Run(c, es))
  {
    if es != [] {
      RunInv(c, es[..|es| - 1]);
      StepInv(Run(c, es[..|es| - 1]), es[|es| - 1]);
    }
  }

  /** The assertion in `udd_ctrl_in_sent` never fails. */
  lemma InSentAssertionHolds(c: Ctrl, es: seq<Event>, e: Event)
    requires Inv(c) && AllOk(es) && CallsInSent(Run(c, es), e)
    ensures Run(c, es).stage.DataIn? || Run(c, es).stage.WaitInZlp?
  {
    RunInv(c, es);
  }

  lemma {:induction false} IncreasingDistinct(s: seq<nat>, i: nat, j: nat)
    requires Increasing(s) && i < j < |s|
    ensures s[i] < s[j]
  {
    if i + 1 < j {
      IncreasingDistinct(s, i, j - 1);
    }
  }

  /** Over any run no completion callback runs twice, and none vanishes from the ledger. */
  lemma CallbackAtMostOnce(c: Ctrl, es: seq<Event>, i: nat, j: nat)
    requires Inv(c) && AllOk(es)
    ensures var d := Run(c, es);
            && (i < j < |d.calls.done| ==> d.calls.done[i] != d.calls.done[j])
            && |d.calls.done| + d.calls.dropped + (if d.req.callback.Some? then 1 else 0) == d.calls.registered
  {
    RunInv(c, es);
    var d := Run(c, es);
    if i < j < |d.calls.done| {
      IncreasingDistinct(d.calls.done, i, j);
    }
  }

  /**
   Over any run the OUT data count stays inside the payload, the stored bytes are those received
   since the buffer was installed, and every byte behind them is what it was then.
   */
  lemma OutReassembly(c: Ctrl, es: seq<Event>)
    requires Inv(c) && AllOk(es) && Run(c, es).stage.DataOut?
    ensures var d := Run(c, es);
            && d.cnt == |d.log.got| <= d.req.size <= |d.log.base| == |d.req.payload|
            && d.req.payload[..d.cnt] == d.log.got
            && d.req.payload[d.cnt..] == d.log.base[d.cnt..]
  {
    RunInv(c, es);
  }

  /**
   Over any run, refills included, the data packets of the request in progress carry exactly the
   bytes of the buffers offered, in order, and only the last packet may be short.
   */
  lemma InFragmentation(c: Ctrl, es: seq<Event>)
    requires Inv(c) && AllOk(es) && Run(c, es).stage.DataIn?
    ensures var d := Run(c, es);
            && d.cnt <= d.req.size <= |d.req.payload|
            && Flat(d.log.packets) == d.log.offered + d.req.payload[..d.cnt]
            && FullButLast(d.log.packets)
  {
    RunInv(c, es);
  }

  lemma RefilledStage(c: Ctrl, a: Answer)
    requires c.Bounded() && c.cnt == c.req.size && AnswerOk(a)
    ensures SendPacket(Refilled(c, a), false).stage == c.stage
  {
  }

  lemma StageEnds(p: Ctrl, e: Event)
    requires Inv(p) && EventOk(e) && p.stage.DataIn? && CallsInSent(p, e) && !e.outNow
    ensures var r, n := Step(p, e), |p.log.packets|;
            && (r.stage.WaitOutZlp? <==>
                  && p.cnt == p.req.size
                  && (|p.log.packets[n - 1]| != PACKET || Wrap16(|Flat(p.log.packets)|) == p.req.wLength))
            && (r.stage.WaitOutZlp? ==>
                  r.log == p.log && Flat(r.log.packets) == r.log.offered + r.req.payload[..r.req.size])
  {
    var c1 := p.(irq := p.irq.(tx := false, nakIn := false, nakOut := false));
    var r := Step(p, e);
    assert r == InContinue(c1, e.answer, false);
    ContinueIs(c1, e.answer, false);
    assert |Flat(p.log.packets)| == |p.log.offered| + p.cnt;
    WrapSum(|p.log.offered|, p.cnt);
    if p.cnt == p.req.size {
      RefilledStage(c1.(prev := Wrap16(p.prev + p.cnt)), e.answer);
    }
  }

  /**
   Over any run, refills included: the IN data stage ends at a TX-complete interrupt, without an abort
   by the host, exactly when the buffer in use is sent and its last packet is not full or the bytes sent
   are as many as the host asked for (in 16 bits). So a refilled stage ends at the first buffer whose
   length is not a multiple of the packet size, and the host has then got all that was offered.
   */
  lemma InStageEnds(c: Ctrl, es: seq<Event>, e: Event)
    requires Inv(c) && AllOk(es) && EventOk(e)
    requires Run(c, es).stage.DataIn? && CallsInSent(Run(c, es), e) && !e.outNow
    ensures var p := Run(c, es);
            && p.Bounded() && p.log.packets != []
            && var r, n := Step(p, e), |p.log.packets|;
               && (r.stage.WaitOutZlp? <==>
                     && p.cnt == p.req.size
                     && (|p.log.packets[n - 1]| != PACKET || Wrap16(|Flat(p.log.packets)|) == p.req.wLength))
               && (r.stage.WaitOutZlp? ==>
                     r.log == p.log && Flat(r.log.packets) == r.log.offered + r.req.payload[..r.req.size])
  {
    RunInv(c, es);
    StageEnds(Run(c, es), e);
  }
}
