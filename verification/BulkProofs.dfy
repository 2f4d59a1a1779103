/** What every step of the bulk job engine keeps. */
module BulkProofs {
  import opened Machine
  import opened Bulk

  // ----- what the job engine leaves alone, with the callbacks it runs -----

  /** `r` comes from `e` by the job engine alone: the accounts balance as before and no completion is lost. */
  predicate Follows(e: Ep, r: Ep) {
    && JobBalance(r) == JobBalance(e) && WaitBalance(r) == WaitBalance(e)
    && r.log.waits == e.log.waits && r.log.released == e.log.released
    && e.log.done <= r.log.done && e.log.accepted <= r.log.accepted
    && r.job.stallReq == e.job.stallReq
    && r.hw.enabled == e.hw.enabled && r.hw.stalled == e.hw.stalled && r.hw.bankIrq == e.hw.bankIrq
    && r.hw.dirIn == e.hw.dirIn && r.hw.iso == e.hw.iso && r.hw.epSize == e.hw.epSize
    && (e.job.cnt <= e.job.size ==> r.job.cnt <= r.job.size)
    && ((e.hw.dmaIrq ==> e.hw.dma.Running?) ==> (r.hw.dmaIrq ==> r.hw.dma.Running?))
  }

  /** The endpoint at the moment its transfer callback is called. */
  function Completed(e: Ep, abort: bool, zlp: bool): Ep {
    e.(job := e.job.(busy := false), log := e.log.(done := e.log.done + [Completion(e, abort, zlp)]))
  }

  lemma CompletedFollows(e: Ep, abort: bool, zlp: bool)
    requires Transferring(e)
    ensures Follows(e, Completed(e, abort, zlp))
  {
  }

  /** It is still the same submission that is in progress. */
  predicate SameJob(e: Ep, r: Ep) {
    && r.job.buf == e.job.buf && r.job.call == e.job.call
    && r.log.asked == e.log.asked && r.log.flagged == e.log.flagged && r.log.before == e.log.before
  }

  /** A new job is in progress, submitted by a callback. */
  predicate NewJob(e: Ep, r: Ep) {
    Active(r) && e.log.accepted < r.log.accepted
  }

  /** Only a job submitted by the callback keeps the endpoint busy. */
  lemma FinishFollows(e: Ep, abort: bool, zlp: bool)
    ensures var r := FinishJob(e, abort, zlp); Follows(e, r) && (r.job.busy ==> NewJob(e, r))
    decreases CallDepth(e.job.call), 1
  {
    if e.job.busy && e.job.call.Trans? {
      CompletedFollows(e, abort, zlp);
      var c, cb := Completed(e, abort, zlp), e.job.call.cb;
      if cb.Resubmit? {
        RunFollows(c, cb.short, cb.buf, cb.size, cb.ended, CallOf(cb.next));
      }
    }
  }

  /** A submission is refused without effect, or a job is accepted: this one, or a later one by its callback. */
  lemma RunFollows(e: Ep, short: bool, buf: nat, size: nat, ended: bool, call: Call)
    requires !call.Halt?
    ensures var r := RunJob(e, short, buf, size, ended, call).0;
            && Follows(e, r)
            && (r == e || (e.log.accepted < r.log.accepted && r.job.cnt <= r.job.size && (r.job.busy ==> Active(r))))
    ensures var r := RunJob(e, short, buf, size, ended, call).0;
            r.log.accepted == e.log.accepted + 1 && r.job.busy ==>
              && r.job.buf == buf && r.job.call == call && r.log.before == 0
              && r.log.asked == size && r.log.flagged == (short || size == 0)
    decreases CallDepth(call), 4
  {
    if e.hw.enabled && !Halted(e) && !e.job.busy {
      var a := Accepted(e, short, buf, size, call);
      assert Follows(e, a) && Active(a);
      TransDoneFollows(a, ended);
    }
  }

  lemma CloseFollows(e: Ep)
    ensures var r := CloseJob(e);
            Follows(e, r) && (r.job.busy ==> NewJob(e, r) || (e.job.busy && r.job == e.job && r.log == e.log))
    decreases CallDepth(e.job.call), 2
  {
    if !(e.hw.dirIn && e.job.short) {
      FinishFollows(e, false, false);
    }
  }

  /** A registered wait may outlive a stray DMA event, but no transfer becomes one. */
  lemma TransDoneFollows(e: Ep, ended: bool)
    ensures var r := TransDone(e, ended);
            Follows(e, r) && (r.job.busy ==> NewJob(e, r) || (e.job.busy && SameJob(e, r)))
    decreases CallDepth(e.job.call), 3
  {
    if e.job.busy {
      if e.job.cnt >= e.job.size {
        CloseFollows(e);
      } else if !e.hw.dirIn && ended {
        CloseFollows(e.(job := e.job.(size := e.job.cnt)));
      }
    }
  }

  // ----- conservation and halt exclusion, in every run -----

  lemma RunGeneral(e: Ep, short: bool, buf: nat, size: nat, ended: bool, call: Call)
    requires General(e) && !call.Halt?
    ensures General(RunJob(e, short, buf, size, ended, call).0)
  {
    RunFollows(e, short, buf, size, ended, call);
  }

  lemma FinishGeneral(e: Ep, abort: bool, zlp: bool)
    requires Base(e)
    ensures General(FinishJob(e, abort, zlp))
  {
    FinishFollows(e, abort, zlp);
  }

  lemma TransDoneGeneral(e: Ep, ended: bool)
    requires General(e)
    ensures General(TransDone(e, ended))
  {
    TransDoneFollows(e, ended);
  }

  lemma DmaGeneral(e: Ep, count: nat, ended: bool)
    requires General(e) && Enabled(e, DmaEnd(count, ended))
    ensures General(Step(e, DmaEnd(count, ended)))
  {
    var a := AfterDma(e, count);
    assert General(a);
    TransDoneGeneral(a, ended);
  }

  lemma HaltGeneral(e: Ep, banksBusy: bool)
    requires General(e)
    ensures General(OnSetHalt(e, banksBusy)) && General(OnClearHalt(e)) && General(OnWaitStallClear(e))
  {
  }

  lemma DrainedGeneral(e: Ep)
    requires General(e) && Enabled(e, BanksDrained)
    ensures General(Step(e, BanksDrained))
  {
  }

  lemma StepGeneral(e: Ep, ev: Event)
    requires General(e) && Enabled(e, ev)
    ensures General(Step(e, ev))
  {
    match ev
    case Run(short, buf, size, ended, call) => RunGeneral(e, short, buf, size, ended, CallOf(call));
    case DmaEnd(count, ended) => DmaGeneral(e, count, ended);
    case BankFree => FinishGeneral(e.(hw := e.hw.(zlpIrq := false)), false, true);
    case Abort => FinishGeneral(e.(hw := e.hw.(dma := Idle)), true, false);
    case BusReset => FinishGeneral(e.(hw := ResetHw(e.hw)), true, false);
    case BanksDrained => DrainedGeneral(e);
    case Enable =>
    case SetHalt(banksBusy) => HaltGeneral(e, banksBusy);
    case ClearHalt => HaltGeneral(e, false);
    case WaitStallClear => HaltGeneral(e, false);
  }
}
