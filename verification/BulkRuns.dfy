/** Whole runs of the bulk job engine: conservation, tiling, reported sizes, wire packets and halts. */
module BulkRuns {
  import opened Machine
  import opened Bulk
  import opened BulkProofs
  import opened BulkTiling

  lemma {:induction false} GeneralRun(e: Ep, evs: seq<Event>)
    requires General(e)
    ensures General(RunEvents(e, evs))
  {
    if evs != [] {
      var k := |evs| - 1;
      GeneralRun(e, evs[..k]);
      var p := RunEvents(e, evs[..k]);
      if Enabled(p, evs[k]) {
        StepGeneral(p, evs[k]);
      }
    }
  }

  lemma {:induction false} LaidRun(e: Ep, evs: seq<Event>)
    requires Laid(e)
    ensures Laid(RunEvents(e, evs))
  {
    if evs != [] {
      var k := |evs| - 1;
      LaidRun(e, evs[..k]);
      var p := RunEvents(e, evs[..k]);
      if Enabled(p, evs[k]) {
        StepLaid(p, evs[k]);
      }
    }
  }

  lemma RunNext(e: Ep, evs: seq<Event>, ev: Event)
    ensures var p := RunEvents(e, evs);
            RunEvents(e, evs + [ev]) == if Enabled(p, ev) then Step(p, ev) else p
  {
    assert (evs + [ev])[..|evs|] == evs;
  }

  lemma {:induction false} RunAppend(e: Ep, first: Event, evs: seq<Event>)
    requires Enabled(e, first)
    ensures RunEvents(e, [first] + evs) == RunEvents(Step(e, first), evs)
  {
    if evs == [] {
      assert [first] + evs == [] + [first];
      RunNext(e, [], first);
    } else {
      var k := |evs| - 1;
      RunAppend(e, first, evs[..k]);
      assert [first] + evs == [first] + evs[..k] + [evs[k]];
      RunNext(e, [first] + evs[..k], evs[k]);
    }
  }

  lemma CleanPrefix(e: Ep, evs: seq<Event>, k: nat)
    requires CleanRun(e, evs) && k <= |evs|
    ensures CleanRun(e, evs[..k])
  {
    assert forall i :: 0 <= i <= k ==> evs[..k][..i] == evs[..i];
  }

  lemma {:induction false} SoundRun(e: Ep, evs: seq<Event>)
    requires Sound(e) && CleanRun(e, evs)
    ensures Sound(RunEvents(e, evs))
  {
    if evs != [] {
      var k := |evs| - 1;
      CleanPrefix(e, evs, k);
      SoundRun(e, evs[..k]);
      var p := RunEvents(e, evs[..k]);
      if Enabled(p, evs[k]) {
        StepSound(p, evs[k]);
      }
    }
  }

  /**
   Job conservation. Over every interleaving of submissions (also from inside callbacks), DMA and
   ZLP interrupts, aborts, bus resets and halts, the accepted transfer jobs are the completions
   delivered, plus those without a callback, plus one if a transfer is in progress.
   */
  lemma JobConservation(e: Ep, evs: seq<Event>)
    requires Fresh(e)
    ensures var r := RunEvents(e, evs);
            && r.log.accepted == |r.log.done| + r.log.silent + Count(Transferring(r))
            && r.log.waits == r.log.released + r.log.misfired + Count(r.job.busy && r.job.call.Halt?)
  {
    GeneralRun(e, evs);
  }

  /**
   Halt exclusion. No reachable state has a transfer job together with a requested or active stall,
   so clearing a halt only ever calls a callback registered for that, and the assertion of the
   drained-bank interrupt holds.
   */
  lemma HaltExclusion(e: Ep, evs: seq<Event>)
    requires Fresh(e)
    ensures var r := RunEvents(e, evs);
            && !(Transferring(r) && Halted(r))
            && OnClearHalt(r).log.misfired == r.log.misfired
            && (Enabled(r, BanksDrained) ==> r.job.stallReq)
  {
    GeneralRun(e, evs);
  }

  /**
   DMA window tiling. In every run, whatever is aborted, miscounted or completed out of turn, the
   windows of every completed job and of the job in progress are consecutive, of at most 65536
   bytes and inside the buffer, and only the last one may be shorter.
   */
  lemma WindowTiling(e: Ep, evs: seq<Event>)
    requires Fresh(e)
    ensures var r := RunEvents(e, evs);
            && (forall i :: 0 <= i < |r.log.done| ==> Tiling(r.log.done[i].windows, r.log.done[i].asked))
            && (Transferring(r) ==> Tiling(r.log.windows, r.log.asked))
  {
    LaidRun(e, evs);
  }

  /**
   Reported sizes. In a clean run every completion with status OK reports exactly the bytes moved,
   and the address and the 16-bit length field of the channel name the last window of the job.
   */
  lemma ReportedSizes(e: Ep, evs: seq<Event>)
    requires Fresh(e) && CleanRun(e, evs)
    ensures var r := RunEvents(e, evs);
            && HonestSoFar(r)
            && (r.hw.dma.Running? ==>
                  && r.job.buf <= r.hw.dma.at
                  && r.log.windows != []
                  && r.log.windows[|r.log.windows| - 1] == Window(r.hw.dma.at - r.job.buf, FieldLength(r.hw.dma.field)))
  {
    SoundRun(e, evs);
  }

  // ----- where a submitted job is moved -----

  lemma StepSameJob(e: Ep, ev: Event)
    requires General(e) && Enabled(e, ev)
    ensures var r := Step(e, ev);
            && e.log.accepted <= r.log.accepted
            && (r.log.accepted == e.log.accepted && Transferring(r) ==> Transferring(e) && SameJob(e, r))
  {
    match ev
    case Run(short, buf, size, ended, call) => RunFollows(e, short, buf, size, ended, CallOf(call));
    case DmaEnd(count, ended) => TransDoneFollows(AfterDma(e, count), ended);
    case BankFree => FinishFollows(e.(hw := e.hw.(zlpIrq := false)), false, true);
    case Abort => FinishFollows(e.(hw := e.hw.(dma := Idle)), true, false);
    case BusReset => FinishFollows(e.(hw := ResetHw(e.hw)), true, false);
    case _ =>
  }

  /** As long as no other job is accepted, a transfer in progress is the one that was. */
  lemma {:induction false} SameJobRun(e: Ep, evs: seq<Event>)
    requires General(e)
    ensures var r := RunEvents(e, evs);
            && e.log.accepted <= r.log.accepted
            && (r.log.accepted == e.log.accepted && Transferring(r) ==> Transferring(e) && SameJob(e, r))
  {
    if evs != [] {
      var k := |evs| - 1;
      SameJobRun(e, evs[..k]);
      GeneralRun(e, evs[..k]);
      var p := RunEvents(e, evs[..k]);
      if Enabled(p, evs[k]) {
        StepSameJob(p, evs[k]);
      }
    }
  }

  /** `r` is moving `size` bytes at `data`, as they were submitted. */
  predicate Moves(r: Ep, short: bool, data: nat, size: nat, call: Option<Callback>) {
    && r.job.buf == data && r.log.asked == size && r.log.flagged == (short || size == 0) && r.log.before == 0
    && r.job.call == match call { case None => NoCall case Some(cb) => Trans(cb) }
  }

  /** The endpoint right after the submission. */
  lemma JustSubmitted(e: Ep, short: bool, data: nat, size: nat, ended: bool, call: Option<Callback>)
    requires General(e) && !e.job.busy && e.hw.enabled && !Halted(e)
    ensures var s := Step(e, Run(short, data, size, ended, call));
            && General(s) && e.log.accepted < s.log.accepted
            && (s.log.accepted == e.log.accepted + 1 && Transferring(s) ==> Moves(s, short, data, size, call))
  {
    StepGeneral(e, Run(short, data, size, ended, call));
    RunFollows(e, short, data, size, ended, CallOf(call));
    TransDoneFollows(Accepted(e, short, data, size, CallOf(call)), ended);
  }

  lemma SameMoves(s: Ep, r: Ep, short: bool, data: nat, size: nat, call: Option<Callback>)
    requires SameJob(s, r) && Moves(s, short, data, size, call)
    ensures Moves(r, short, data, size, call)
  {
  }

  /**
   A submitted job in any run: as long as no other job has been accepted, the transfer in progress is
   that of the buffer, size, flag and callback submitted.
   */
  lemma SubmittedJob(e: Ep, short: bool, data: nat, size: nat, ended: bool, call: Option<Callback>, evs: seq<Event>)
    requires General(e) && !e.job.busy && e.hw.enabled && !Halted(e)
    ensures var r := RunEvents(e, [Run(short, data, size, ended, call)] + evs);
            r.log.accepted == e.log.accepted + 1 && Transferring(r) ==> Moves(r, short, data, size, call)
  {
    var ev := Run(short, data, size, ended, call);
    var s := Step(e, ev);
    RunAppend(e, ev, evs);
    JustSubmitted(e, short, data, size, ended, call);
    SameJobRun(s, evs);
    var r := RunEvents(s, evs);
    if r.log.accepted == e.log.accepted + 1 && Transferring(r) {
      SameMoves(s, r, short, data, size, call);
    }
  }

  /**
   The job a callback submits from inside a completion: on an endpoint that takes it and with something
   to move, it is under way from its own buffer when the completion returns.
   */
  lemma CallbackSubmits(e: Ep, abort: bool, zlp: bool)
    requires Transferring(e) && Active(e) && e.job.call.Trans? && e.job.call.cb.Resubmit?
    requires e.job.call.cb.size > 0 && (e.hw.dirIn || !e.job.call.cb.ended)
    ensures var r, cb := FinishJob(e, abort, zlp), e.job.call.cb;
            && r.job.busy && r.log.accepted == e.log.accepted + 1 && |r.log.done| == |e.log.done| + 1
            && Moves(r, cb.short, cb.buf, cb.size, cb.next)
            && r.hw.dma.Running? && r.hw.dma.at == cb.buf && FieldLength(r.hw.dma.field) == Min(MAX_TRANS, cb.size)
  {
    var c, cb := Completed(e, abort, zlp), e.job.call.cb;
    var a := Accepted(c, cb.short, cb.buf, cb.size, CallOf(cb.next));
    assert TransDone(a, cb.ended) == StartWindow(a);
    assert RunJob(c, cb.short, cb.buf, cb.size, cb.ended, CallOf(cb.next)).0 == StartWindow(a);
    assert FinishJob(e, abort, zlp) == React(c, cb) == StartWindow(a);
    LengthFieldExact(cb.size);
  }

  /**
   In a clean run every window of it starts at the submitted address plus its offset, a multiple of
   65536, and ends inside the buffer.
   */
  lemma SubmittedWindows(e: Ep, short: bool, data: nat, size: nat, ended: bool, call: Option<Callback>, evs: seq<Event>)
    requires Sound(e) && CleanRun(e, [Run(short, data, size, ended, call)] + evs)
    requires !e.job.busy && e.hw.enabled && !Halted(e)
    ensures var r := RunEvents(e, [Run(short, data, size, ended, call)] + evs);
            r.log.accepted == e.log.accepted + 1 && r.hw.dma.Running? ==>
              && Moves(r, short, data, size, call)
              && r.log.windows != []
              && r.hw.dma.at == data + MAX_TRANS * (|r.log.windows| - 1)
              && r.hw.dma.at + FieldLength(r.hw.dma.field) <= data + size
  {
    SubmittedJob(e, short, data, size, ended, call, evs);
    SoundRun(e, [Run(short, data, size, ended, call)] + evs);
  }

  // ----- packets on the wire -----

  /** The packets in which `n` bytes leave an endpoint of size `m`. */
  function Lengths(n: nat, m: nat): seq<nat>
    requires m > 0
  {
    if n == 0 then [] else if n <= m then [n] else [m] + Lengths(n - m, m)
  }

  /** A full packet comes first. */
  lemma LengthsStep(n: nat, m: nat)
    requires m > 0
    ensures Lengths(m + n, m) == [m] + Lengths(n, m)
  {
  }

  lemma {:induction false} LengthsSplit(k: nat, n: nat, m: nat)
    requires m > 0
    ensures Lengths(m * k + n, m) == Lengths(m * k, m) + Lengths(n, m)
  {
    if k == 0 {
      assert m * k == 0;
    } else {
      var a := m * (k - 1);
      assert m * k == m + a;
      LengthsSplit(k - 1, n, m);
      LengthsStep(a + n, m);
      LengthsStep(a, m);
      assert m * k + n == m + (a + n);
    }
  }

  /** The packets of successive windows. */
  function WireOf(ws: seq<Window>, m: nat): seq<nat>
    requires m > 0
  {
    if ws == [] then [] else WireOf(ws[..|ws| - 1], m) + Lengths(ws[|ws| - 1].len, m)
  }

  lemma TilingInit(ws: seq<Window>, asked: nat)
    requires Tiling(ws, asked) && ws != []
    ensures var k := |ws| - 1;
            AllMaximal(ws[..k]) && End(ws) == MAX_TRANS * k + ws[k].len
  {
  }

  /** A packet size that divides the maximal window. */
  predicate Divides(m: nat) {
    m > 0 && MAX_TRANS % m == 0
  }

  lemma LengthsOfNext(k: nat, n: nat, m: nat)
    requires Divides(m)
    ensures Lengths(MAX_TRANS * k + n, m) == Lengths(MAX_TRANS * k, m) + Lengths(n, m)
  {
    var d := MAX_TRANS / m;
    assert MAX_TRANS == m * d;
    assert MAX_TRANS * k == m * (d * k);
    LengthsSplit(d * k, n, m);
  }

  /** One more window. */
  lemma WireNext(ws: seq<Window>, m: nat, head: nat, n: nat)
    requires m > 0 && ws != [] && ws[|ws| - 1].len == n
    requires WireOf(ws[..|ws| - 1], m) == Lengths(head, m)
    requires Lengths(head + n, m) == Lengths(head, m) + Lengths(n, m)
    ensures WireOf(ws, m) == Lengths(head + n, m)
  {
  }

  lemma {:induction false} MaximalWire(ws: seq<Window>, m: nat)
    requires AllMaximal(ws) && Divides(m)
    ensures WireOf(ws, m) == Lengths(MAX_TRANS * |ws|, m)
  {
    if ws != [] {
      var k := |ws| - 1;
      MaximalWire(ws[..k], m);
      LengthsOfNext(k, MAX_TRANS, m);
      WireNext(ws, m, MAX_TRANS * k, MAX_TRANS);
    }
  }

  lemma MaximalButLast(ws: seq<Window>, m: nat)
    requires ws != [] && AllMaximal(ws[..|ws| - 1]) && Divides(m)
    ensures WireOf(ws, m) == Lengths(MAX_TRANS * (|ws| - 1) + ws[|ws| - 1].len, m)
  {
    var k, n := |ws| - 1, ws[|ws| - 1].len;
    MaximalWire(ws[..k], m);
    LengthsOfNext(k, n, m);
    WireNext(ws, m, MAX_TRANS * k, n);
  }

  /** Cutting a job into DMA windows does not show on the wire. */
  lemma WindowsInvisible(ws: seq<Window>, asked: nat, epSize: EpSize)
    requires Tiling(ws, asked)
    ensures WireOf(ws, epSize) == Lengths(End(ws), epSize)
  {
    if ws != [] {
      TilingInit(ws, asked);
      MaximalButLast(ws, epSize);
    }
  }

  /** The last packet is full exactly when the length is a positive multiple of the endpoint size. */
  lemma {:induction false} LastLength(n: nat, m: nat)
    requires m > 0 && n > 0
    ensures var ls := Lengths(n, m); ls != [] && 0 < ls[|ls| - 1] <= m && (ls[|ls| - 1] == m <==> n % m == 0)
  {
    if n > m {
      LastLength(n - m, m);
      ModPlus(n - m, m);
    }
  }

  /** The packets a completed IN job put on the wire, the ZLP included. */
  function WirePackets(d: Done, epSize: EpSize): seq<nat> {
    WireOf(d.windows, epSize) + if d.zlp then [0] else []
  }

  /** The packets of an honest IN completion. */
  lemma WireRule(d: Done, epSize: EpSize)
    requires Honest(d, true, epSize) && Tiling(d.windows, d.asked) && d.ok
    ensures WirePackets(d, epSize) ==
            Lengths(d.asked, epSize) + if d.flagged && d.asked % epSize == 0 then [0] else []
  {
    WindowsInvisible(d.windows, d.asked, epSize);
  }

  /** A flagged job ends in a packet that is not full. */
  lemma FlaggedEndsShort(asked: nat, epSize: EpSize)
    ensures var ps := Lengths(asked, epSize) + if asked % epSize == 0 then [0] else [];
            ps != [] && ps[|ps| - 1] < epSize
  {
    if asked > 0 {
      LastLength(asked, epSize);
    }
  }

  /**
   Short-packet rule. In a clean run every IN job that completes OK sends its bytes in full packets
   with the rest in the last one; a ZLP follows exactly when a short packet was asked for (or the
   job was empty) and the size is a multiple of the endpoint size, so the last packet of such a job
   is always shorter than the endpoint size (section 5.8.3 of the USB 2.0 specification).
   */
  lemma ShortPacketRule(e: Ep, evs: seq<Event>, i: nat)
    requires Fresh(e) && CleanRun(e, evs)
    requires var r := RunEvents(e, evs); r.hw.dirIn && i < |r.log.done| && r.log.done[i].ok
    ensures var r := RunEvents(e, evs);
            var d := r.log.done[i];
            var ps := WirePackets(d, r.hw.epSize);
            && ps == Lengths(d.asked, r.hw.epSize) + (if d.flagged && d.asked % r.hw.epSize == 0 then [0] else [])
            && (d.flagged ==> ps != [] && ps[|ps| - 1] < r.hw.epSize)
  {
    SoundRun(e, evs);
    var r := RunEvents(e, evs);
    WireRule(r.log.done[i], r.hw.epSize);
    FlaggedEndsShort(r.log.done[i].asked, r.hw.epSize);
  }

  // ----- halts -----

  /** Packets of the endpoint are still on the line. */
  predicate Draining(evs: seq<Event>) {
    forall i :: 0 <= i < |evs| ==> !evs[i].BanksDrained? && (evs[i].SetHalt? ==> evs[i].banksBusy)
  }

  lemma DrainingStep(e: Ep, ev: Event)
    requires General(e) && e.hw.dirIn && !e.hw.stalled && Enabled(e, ev) && Draining([ev])
    ensures var r := Step(e, ev); r.hw.dirIn && !r.hw.stalled
  {
    assert [ev][0] == ev;
    match ev
    case Run(short, buf, size, ended, call) => RunFollows(e, short, buf, size, ended, CallOf(call));
    case DmaEnd(count, ended) => TransDoneFollows(AfterDma(e, count), ended);
    case BankFree => FinishFollows(e.(hw := e.hw.(zlpIrq := false)), false, true);
    case Abort => FinishFollows(e.(hw := e.hw.(dma := Idle)), true, false);
    case BusReset => FinishFollows(e.(hw := ResetHw(e.hw)), true, false);
    case _ =>
  }

  /** While its banks are busy, an IN endpoint is never stalled, whatever is asked of it. */
  lemma {:induction false} NoStallBeforeDrained(e: Ep, evs: seq<Event>)
    requires General(e) && e.hw.dirIn && !e.hw.stalled && Draining(evs)
    ensures var r := RunEvents(e, evs); r.hw.dirIn && !r.hw.stalled
  {
    if evs != [] {
      var k := |evs| - 1;
      NoStallBeforeDrained(e, evs[..k]);
      GeneralRun(e, evs[..k]);
      var p := RunEvents(e, evs[..k]);
      if Enabled(p, evs[k]) {
        DrainingStep(p, evs[k]);
      }
    }
  }

  /** The events after which an endpoint may not be halted any more. */
  predicate EndsHalt(ev: Event) {
    ev.ClearHalt? || ev.BusReset?
  }

  predicate NoneEndsHalt(evs: seq<Event>) {
    forall i :: 0 <= i < |evs| ==> !EndsHalt(evs[i])
  }

  /** `r` is as halted as `e`, and no job was accepted or completed on the way. */
  predicate StaysHalted(e: Ep, r: Ep) {
    && General(r) && Halted(r) && r.hw.enabled == e.hw.enabled
    && r.log.accepted == e.log.accepted && r.log.done == e.log.done
    && r.log.released == e.log.released
  }

  lemma HaltClose(e: Ep)
    requires e.job.busy && e.job.call.Halt?
    ensures CloseJob(e).log.accepted == e.log.accepted && CloseJob(e).log.done == e.log.done
  {
  }

  lemma StrayDmaHalted(e: Ep, count: nat, ended: bool)
    requires General(e) && Halted(e) && Enabled(e, DmaEnd(count, ended))
    ensures var r := Step(e, DmaEnd(count, ended));
            r.log.accepted == e.log.accepted && r.log.done == e.log.done && Follows(AfterDma(e, count), r)
  {
    var a := AfterDma(e, count);
    TransDoneFollows(a, ended);
    if a.job.busy {
      HaltClose(a);
      HaltClose(a.(job := a.job.(size := a.job.cnt)));
    }
  }

  lemma HaltedStep(e: Ep, ev: Event)
    requires General(e) && Halted(e) && e.hw.enabled && Enabled(e, ev) && !EndsHalt(ev)
    ensures StaysHalted(e, Step(e, ev))
  {
    StepGeneral(e, ev);
    if ev.DmaEnd? {
      StrayDmaHalted(e, ev.count, ev.ended);
    }
  }

  /**
   A halt lasts. From a halted state no run accepts or completes a job or releases a wait until
   the halt is cleared or the bus is reset, whatever else happens.
   */
  lemma {:induction false} HaltLasts(e: Ep, evs: seq<Event>)
    requires General(e) && Halted(e) && e.hw.enabled && NoneEndsHalt(evs)
    ensures StaysHalted(e, RunEvents(e, evs))
  {
    if evs != [] {
      var k := |evs| - 1;
      HaltLasts(e, evs[..k]);
      var p := RunEvents(e, evs[..k]);
      if Enabled(p, evs[k]) {
        HaltedStep(p, evs[k]);
      }
    }
  }

  /**
   A halt cycle. After a halt of an idle endpoint and any run that neither clears it nor resets the
   bus, clearing the halt releases the registered wait, if there is one, exactly once, misfires
   nothing, and jobs are accepted again; none was accepted in between.
   */
  lemma HaltCycle(e: Ep, banksBusy: bool, evs: seq<Event>, size: nat)
    requires General(e) && e.hw.enabled && !e.job.busy && NoneEndsHalt(evs)
    ensures var h := Step(e, SetHalt(banksBusy));
            var w := RunEvents(h, evs);
            var r := Step(w, ClearHalt);
            && Halted(w) && w.log.accepted == e.log.accepted
            && r.log.released == e.log.released + Count(w.job.busy) && r.log.misfired == w.log.misfired
            && !r.job.busy && !Halted(r) && RunJob(r, false, 0, size, false, NoCall).1
  {
    StepGeneral(e, SetHalt(banksBusy));
    HaltLasts(Step(e, SetHalt(banksBusy)), evs);
  }

  // ----- the callback union -----

  /**
   `call_trans` and `call_nohalt` share their storage: an abort calls the latter through the former
   exactly when a wait for the end of a halt is registered.
   */
  lemma AbortMisfires(e: Ep, evs: seq<Event>)
    requires Fresh(e)
    ensures var r := RunEvents(e, evs);
            Step(r, Abort).log.misfired > r.log.misfired <==> r.job.busy && Halted(r)
  {
    GeneralRun(e, evs);
    var r := RunEvents(e, evs);
    FinishFollows(r.(hw := r.hw.(dma := Idle)), true, false);
  }
}
