/** DMA windows, reported sizes and the short-packet flag: what the steps of the bulk job engine keep. */
module BulkTiling {
  import opened Machine
  import opened Bulk
  import opened BulkProofs

  // ----- windows, in every run -----

  lemma StartWindowLaid(e: Ep)
    requires Laid(e) && e.job.cnt < e.job.size
    ensures Laid(StartWindow(e))
  {
    if Transferring(e) {
      var w, s := NextWindow(e), StartWindow(e);
      assert w.at == MAX_TRANS * |e.log.windows|;
      assert w.at + w.len <= e.log.asked;
      assert s.job.cnt < s.job.size ==> w.len == MAX_TRANS;
    }
  }

  lemma FinishLaid(e: Ep, abort: bool, zlp: bool)
    requires AllLaid(e.log.done) && (Transferring(e) ==> Tiling(e.log.windows, e.log.asked))
    ensures Laid(FinishJob(e, abort, zlp))
    decreases CallDepth(e.job.call), 1
  {
    if e.job.busy && e.job.call.Trans? {
      var c, cb := Completed(e, abort, zlp), e.job.call.cb;
      assert Laid(c);
      if cb.Resubmit? {
        RunLaid(c, cb.short, cb.buf, cb.size, cb.ended, CallOf(cb.next));
      }
    }
  }

  lemma RunLaid(e: Ep, short: bool, buf: nat, size: nat, ended: bool, call: Call)
    requires Laid(e) && !call.Halt?
    ensures Laid(RunJob(e, short, buf, size, ended, call).0)
    decreases CallDepth(call), 4
  {
    if e.hw.enabled && !Halted(e) && !e.job.busy {
      TransDoneLaid(Accepted(e, short, buf, size, call), ended);
    }
  }

  lemma CloseLaid(e: Ep)
    requires Laid(e)
    ensures Laid(CloseJob(e))
    decreases CallDepth(e.job.call), 2
  {
    if !(e.hw.dirIn && e.job.short) {
      FinishLaid(e, false, false);
    }
  }

  lemma TransDoneLaid(e: Ep, ended: bool)
    requires Laid(e)
    ensures Laid(TransDone(e, ended))
    decreases CallDepth(e.job.call), 3
  {
    if e.job.busy {
      if e.job.cnt >= e.job.size {
        CloseLaid(e);
      } else if e.hw.dirIn || !ended {
        StartWindowLaid(e);
      } else {
        CloseLaid(e.(job := e.job.(size := e.job.cnt)));
      }
    }
  }

  /** Every event, clean or not, keeps the windows of all jobs in place. */
  lemma StepLaid(e: Ep, ev: Event)
    requires Laid(e) && Enabled(e, ev)
    ensures Laid(Step(e, ev))
  {
    match ev
    case Run(short, buf, size, ended, call) => RunLaid(e, short, buf, size, ended, CallOf(call));
    case DmaEnd(count, ended) => TransDoneLaid(AfterDma(e, count), ended);
    case BankFree => FinishLaid(e.(hw := e.hw.(zlpIrq := false)), false, true);
    case Abort => FinishLaid(e.(hw := e.hw.(dma := Idle)), true, false);
    case BusReset => FinishLaid(e.(hw := ResetHw(e.hw)), true, false);
    case _ =>
  }

  // ----- endpoint sizes and windows -----

  /** The length field of the hardware names the length of the window. */
  lemma LengthFieldExact(remaining: nat)
    requires remaining > 0
    ensures FieldLength(LengthField(remaining)) == Min(MAX_TRANS, remaining)
  {
  }

  /** A non-zero multiple of `m` is at least `m` away from zero. */
  lemma MultipleOutside(m: int, d: int)
    requires m > 0
    ensures d > 0 ==> m * d >= m
    ensures d < 0 ==> m * d <= -m
  {
  }

  lemma ModPlus(x: nat, m: nat)
    requires m > 0
    ensures (x + m) % m == x % m
  {
    var q, r := x / m, x % m;
    var p, s := (x + m) / m, (x + m) % m;
    assert m * p + s == m * q + m + r;
    assert m * (p - q - 1) == r - s;
    MultipleOutside(m, p - q - 1);
  }

  lemma {:induction false} ModShift(m: nat, q: nat, n: nat)
    requires m > 0
    ensures (m * q + n) % m == n % m
  {
    if q > 0 {
      ModShift(m, q - 1, n);
      var x := m * (q - 1) + n;
      assert m * q + n == x + m;
      ModPlus(x, m);
    }
  }

  /** Every endpoint size divides the maximal window. */
  lemma MaxMultiple(k: nat, epSize: EpSize) returns (c: nat)
    ensures MAX_TRANS * k == epSize * c
  {
    var d := MAX_TRANS / epSize;
    assert MAX_TRANS == epSize * d;
    c := d * k;
    assert MAX_TRANS * k == epSize * (d * k);
  }

  /** So splitting a job into windows keeps its residue. */
  lemma ResidueKept(k: nat, n: nat, epSize: EpSize)
    ensures (MAX_TRANS * k + n) % epSize == n % epSize
  {
    var c := MaxMultiple(k, epSize);
    ModShift(epSize, c, n);
  }

  // ----- reported sizes and the short-packet flag, by clean events -----

  /** No window in flight and no ZLP pending. */
  predicate Quiescent(e: Ep) {
    HonestSoFar(e) && e.hw.dma.Idle? && !e.hw.zlpIrq
  }

  /** The counters of a transfer job between two windows. */
  predicate Ready(e: Ep) {
    && Transferring(e) && JobLaid(e.job, e.log)
    && Moved(e, e.job.cnt)
    && (e.hw.dirIn ==>
          e.job.size == e.log.asked && End(e.log.windows) == e.job.cnt && LoadKnown(e.job, e.log))
  }

  /** A transfer job between two windows. */
  predicate Between(e: Ep) {
    Ready(e) && FlagRule(e)
  }

  lemma StartWindowFlag(e: Ep)
    requires Between(e) && e.job.cnt < e.job.size
    ensures FlagRule(StartWindow(e))
  {
    var w := NextWindow(e);
    ResidueKept(|e.log.windows|, w.len, e.hw.epSize);
    ResidueKept(|e.log.windows|, 0, e.hw.epSize);
  }

  /** Whatever the channel was doing, the window started is in flight. */
  lemma StartWindowFlies(e: Ep)
    requires Ready(e) && e.job.cnt < e.job.size && !e.hw.zlpIrq
    ensures InFlight(StartWindow(e))
  {
    LengthFieldExact(e.job.size - e.job.cnt);
  }

  lemma StartWindowExact(e: Ep)
    requires HonestSoFar(e) && !e.hw.zlpIrq && Between(e) && e.job.cnt < e.job.size
    ensures Exact(StartWindow(e))
  {
    StartWindowFlag(e);
    StartWindowFlies(e);
  }

  lemma FinishExact(e: Ep, abort: bool, zlp: bool)
    requires Quiescent(e)
    requires e.job.busy && e.job.call.Trans? ==> Honest(Completion(e, abort, zlp), e.hw.dirIn, e.hw.epSize)
    ensures Exact(FinishJob(e, abort, zlp))
    decreases CallDepth(e.job.call), 1
  {
    if e.job.busy && e.job.call.Trans? {
      var c, cb := Completed(e, abort, zlp), e.job.call.cb;
      assert Quiescent(c);
      if cb.Resubmit? {
        RunExact(c, cb.short, cb.buf, cb.size, cb.ended, CallOf(cb.next));
      }
    }
  }

  lemma RunExact(e: Ep, short: bool, buf: nat, size: nat, ended: bool, call: Call)
    requires Quiescent(e) && !e.job.busy && !call.Halt?
    ensures Exact(RunJob(e, short, buf, size, ended, call).0)
    decreases CallDepth(call), 4
  {
    if e.hw.enabled && !Halted(e) {
      TransDoneExact(Accepted(e, short, buf, size, call), ended);
    }
  }

  lemma CloseExact(e: Ep)
    requires Quiescent(e) && Between(e) && e.job.cnt == e.job.size
    ensures Exact(CloseJob(e))
    decreases CallDepth(e.job.call), 2
  {
    if !(e.hw.dirIn && e.job.short) {
      FinishExact(e, false, false);
    }
  }

  lemma TransDoneExact(e: Ep, ended: bool)
    requires Quiescent(e) && Between(e)
    ensures Exact(TransDone(e, ended))
    decreases CallDepth(e.job.call), 3
  {
    if e.job.cnt >= e.job.size {
      CloseExact(e);
    } else if e.hw.dirIn || !ended {
      StartWindowExact(e);
    } else {
      CloseExact(e.(job := e.job.(size := e.job.cnt)));
    }
  }

  lemma AfterDmaBetween(e: Ep, count: nat, ended: bool)
    requires Laid(e) && Exact(e) && Enabled(e, DmaEnd(count, ended)) && Clean(e, DmaEnd(count, ended))
    ensures Quiescent(AfterDma(e, count)) && Between(AfterDma(e, count))
  {
    assert InFlight(e);
    assert e.hw.dirIn ==> count == e.job.load;
  }

  lemma DmaExact(e: Ep, count: nat, ended: bool)
    requires Laid(e) && Exact(e) && Enabled(e, DmaEnd(count, ended)) && Clean(e, DmaEnd(count, ended))
    ensures Exact(Step(e, DmaEnd(count, ended)))
  {
    AfterDmaBetween(e, count, ended);
    TransDoneExact(AfterDma(e, count), ended);
  }

  lemma BankFreeExact(e: Ep)
    requires Exact(e) && Enabled(e, BankFree)
    ensures Exact(Step(e, BankFree))
  {
    assert ZlpWaits(e);
    FinishExact(e.(hw := e.hw.(zlpIrq := false)), false, true);
  }

  /** A callback that answers an abort with an empty job takes over the pending ZLP interrupt. */
  lemma EmptyResubmit(e: Ep, abort: bool, zlp: bool)
    requires Exact(e) && ZlpWaits(e) && e.job.busy && Active(e) && ResubmitsEmpty(e.job.call) && abort
    ensures Exact(FinishJob(e, abort, zlp))
  {
    var c, cb := Completed(e, abort, zlp), e.job.call.cb;
    assert HonestSoFar(c);
    var a := Accepted(c, cb.short, cb.buf, 0, CallOf(cb.next));
    assert TransDone(a, cb.ended) == CloseJob(a);
    assert RunJob(c, cb.short, cb.buf, 0, cb.ended, CallOf(cb.next)).0 == CloseJob(a);
    assert FinishJob(e, abort, zlp) == React(c, cb);
  }

  lemma AbortExact(e: Ep)
    requires General(e) && Exact(e) && Clean(e, Abort)
    ensures Exact(Step(e, Abort))
  {
    var a := e.(hw := e.hw.(dma := Idle));
    if e.hw.zlpIrq {
      EmptyResubmit(a, true, false);
    } else {
      FinishExact(a, true, false);
    }
  }

  /** Halts concern endpoints without a transfer only, and leave the channel alone. */
  lemma HaltExact(e: Ep, banksBusy: bool)
    requires General(e) && Exact(e)
    ensures Exact(OnSetHalt(e, banksBusy)) && Exact(OnWaitStallClear(e))
  {
    if Transferring(e) {
      assert OnSetHalt(e, banksBusy) == e && OnWaitStallClear(e) == e;
    }
  }

  lemma ClearHaltExact(e: Ep)
    requires General(e) && Exact(e)
    ensures Exact(OnClearHalt(e))
  {
    if Transferring(e) {
      assert OnClearHalt(e) == e;
    }
  }

  lemma DrainedExact(e: Ep)
    requires General(e) && Exact(e) && Enabled(e, BanksDrained)
    ensures Exact(Step(e, BanksDrained))
  {
    assert Halted(e) && !Transferring(e);
  }

  lemma StepExact(e: Ep, ev: Event)
    requires Sound(e) && Enabled(e, ev) && Clean(e, ev)
    ensures Exact(Step(e, ev))
  {
    match ev
    case Run(short, buf, size, ended, call) =>
      if !e.job.busy {
        RunExact(e, short, buf, size, ended, CallOf(call));
      }
    case DmaEnd(count, ended) => DmaExact(e, count, ended);
    case BankFree => BankFreeExact(e);
    case Abort => AbortExact(e);
    case BusReset => FinishExact(e.(hw := ResetHw(e.hw)), true, false);
    case Enable =>
    case SetHalt(banksBusy) => HaltExact(e, banksBusy);
    case BanksDrained => DrainedExact(e);
    case ClearHalt => ClearHaltExact(e);
    case WaitStallClear => HaltExact(e, false);
  }

  /** Every clean event keeps the invariants of clean runs. */
  lemma StepSound(e: Ep, ev: Event)
    requires Sound(e) && Enabled(e, ev) && Clean(e, ev)
    ensures Sound(Step(e, ev))
  {
    StepGeneral(e, ev);
    StepLaid(e, ev);
    StepExact(e, ev);
  }
}
