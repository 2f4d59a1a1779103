/**
 One bulk endpoint in the shape of `udphs_device.c`: the job structure updated in place by
 submission, interrupts, abort and halt. Each method is proved to perform the corresponding
 function of `Bulk`; the recursion through callbacks is the one of the source.
 */
module BulkDriver {
  import opened Machine
  import opened Bulk
  import opened BulkProofs
  import opened BulkTiling
  import opened BulkLimits

  /** What one event does to the invariants of all runs, to those of clean runs and to the reports to come. */
  lemma StepKeeps(e: Ep, ev: Event)
    requires Enabled(e, ev)
    ensures General(e) && Laid(e) ==> General(Step(e, ev)) && Laid(Step(e, ev))
    ensures Sound(e) ==> (Trustworthy(Step(e, ev)) <==> Clean(e, ev)) && (Clean(e, ev) ==> Sound(Step(e, ev)))
  {
    if General(e) && Laid(e) {
      StepGeneral(e, ev);
      StepLaid(e, ev);
      if Sound(e) {
        ReportsExact(e, ev);
        if Clean(e, ev) {
          StepExact(e, ev);
        }
      }
    }
  }

  lemma FreshSound(e: Ep)
    requires Fresh(e)
    ensures Sound(e)
  {
  }

  /** On a disabled endpoint a completion cannot start anything. */
  lemma FinishDisabled(e: Ep, abort: bool)
    requires !e.hw.enabled
    ensures var r := FinishJob(e, abort, false); r.hw == e.hw && !r.job.busy
  {
    if e.job.busy && e.job.call.Trans? {
      var c := Completed(e, abort, false);
      assert React(c, e.job.call.cb) == c;
    }
  }

  lemma ClearHaltRight(e: Ep)
    requires General(e)
    ensures var r := OnClearHalt(e);
            !Halted(r) && r.log.misfired == e.log.misfired && (Halted(e) && e.job.busy ==> e.job.call.Halt?)
  {
  }

  /** What a submission that is not refused and has something to move, or a ZLP to send, starts at once. */
  lemma SubmitStarts(e: Ep, short: bool, data: nat, size: nat, ended: bool, call: Call)
    requires !call.Halt?
    ensures size > 0 ==> FieldLength(LengthField(size)) == Min(MAX_TRANS, size)
    ensures e.hw.enabled && !Halted(e) && !e.job.busy && (e.hw.dirIn || (size > 0 && !ended)) ==>
              var a := Accepted(e, short, data, size, call);
              Bulk.RunJob(e, short, data, size, ended, call).0 == if size > 0 then StartWindow(a) else CloseJob(a)
  {
    var a := Accepted(e, short, data, size, call);
    if e.hw.enabled && !Halted(e) && !e.job.busy && (e.hw.dirIn || (size > 0 && !ended)) {
      assert TransDone(a, ended) == if size > 0 then StartWindow(a) else CloseJob(a);
    }
    if size > 0 {
      LengthFieldExact(size);
    }
  }

  class BulkEndpoint {
    var busy: bool
    var call: Call
    var buf: nat
    var size: nat
    var cnt: nat
    var load: nat
    var short: bool
    var stallReq: bool
    var hw: Hw
    ghost var log: Trace

    ghost function View(): Ep
      reads this
    {
      Ep(Job(busy, call, buf, size, cnt, load, short, stallReq), hw, log)
    }

    /** The invariants of every run: conservation, halt exclusion and the tiling of all jobs. */
    ghost predicate Valid()
      reads this
    {
      General(View()) && Laid(View())
    }

    /** A freshly allocated endpoint. */
    constructor (dirIn: bool, iso: bool, epSize: EpSize)
      ensures Valid() && Sound(View()) && Fresh(View()) && hw.enabled && hw.dirIn == dirIn && hw.epSize == epSize
    {
      busy, call, buf, size, cnt, load, short, stallReq := false, NoCall, 0, 0, 0, 0, false, false;
      hw := Hw(true, dirIn, iso, epSize, false, Idle, false, false, false, false);
      log := Trace(0, false, [], 0, 0, 0, [], 0, 0, 0, 0);
      new;
      FreshSound(View());
    }

    /** `udd_ep_finish_job`. */
    method FinishJob(abort: bool, ghost zlp: bool)
      modifies this
      ensures View() == Bulk.FinishJob(old(View()), abort, zlp)
      decreases CallDepth(call), 1
    {
      if !busy {
        return;
      }
      ghost var d := Completion(View(), abort, zlp);
      busy := false;
      match call {
        case NoCall =>
          log := log.(silent := log.silent + 1);
        case Halt =>
          log := log.(misfired := log.misfired + 1);
        case Trans(cb) =>
          log := log.(done := log.done + [d]);
          RunCallback(cb);
      }
    }

    /** The transfer callback may submit the next job. */
    method RunCallback(cb: Callback)
      modifies this
      ensures View() == React(old(View()), cb)
      decreases Depth(cb), 0
    {
      match cb {
        case Quiet =>
        case Resubmit(s, b, n, ended, next) =>
          var _ := TryRun(s, b, n, ended, CallOf(next));
      }
    }

    /** The job structure of an accepted job. */
    method Register(shortPacket: bool, data: nat, length: nat, callback: Call)
      modifies this
      ensures View() == Accepted(old(View()), shortPacket, data, length, callback)
    {
      busy, buf, size, call := true, data, length, callback;
      cnt, load := 0, 0;
      short := shortPacket || length == 0;
      log := log.(asked := length, flagged := short, windows := [], before := 0, moved := 0, accepted := log.accepted + 1);
    }

    /** The steps of `udd_ep_run`; it is also called from inside a completion, where the job before is over. */
    method TryRun(shortPacket: bool, data: nat, length: nat, ended: bool, callback: Call) returns (ok: bool)
      requires !callback.Halt?
      modifies this
      ensures (View(), ok) == Bulk.RunJob(old(View()), shortPacket, data, length, ended, callback)
      decreases CallDepth(callback), 4
    {
      if !hw.enabled || hw.stalled || stallReq {
        return false;
      }
      if busy {
        return false;
      }
      Register(shortPacket, data, length, callback);
      TransDone(ended);
      return true;
    }

    /** `udd_ep_run`: with something to move, the DMA runs at the submitted address when it returns. */
    method RunJob(shortPacket: bool, data: nat, length: nat, ended: bool, callback: Call) returns (ok: bool)
      requires !callback.Halt?
      modifies this
      ensures (View(), ok) == Bulk.RunJob(old(View()), shortPacket, data, length, ended, callback)
      ensures ok == old(hw.enabled && !hw.stalled && !stallReq && !busy)
      ensures ok && length > 0 && (old(hw.dirIn) || !ended) ==>
                && busy && buf == data && size == length && call == callback && log.asked == length
                && hw.dma.Running? && hw.dma.at == data && FieldLength(hw.dma.field) == Min(MAX_TRANS, length)
    {
      SubmitStarts(View(), shortPacket, data, length, ended, callback);
      ok := TryRun(shortPacket, data, length, ended, callback);
    }

    /** A submission by the application: refused exactly on a disabled, halted or busy endpoint. */
    method Submit(shortPacket: bool, data: nat, length: nat, ended: bool, callback: Option<Callback>) returns (ok: bool)
      requires Valid()
      modifies this
      ensures Valid() && View() == Step(old(View()), Run(shortPacket, data, length, ended, callback))
      ensures ok == old(hw.enabled && !hw.stalled && !stallReq && !busy)
      ensures !ok ==> View() == old(View())
      ensures ok && length > 0 && (old(hw.dirIn) || !ended) ==>
                && busy && buf == data && size == length && load == cnt == Min(MAX_TRANS, length)
                && log.asked == length && log.flagged == shortPacket && log.accepted == old(log.accepted) + 1
                && call == (match callback { case None => NoCall case Some(cb) => Trans(cb) })
                && hw.dma.Running? && hw.dma.at == data && FieldLength(hw.dma.field) == load && hw.dmaIrq
      ensures ok && length == 0 && old(hw.dirIn) ==> busy && buf == data && log.flagged && hw.zlpIrq && hw.epIrq
      ensures old(Sound(View())) ==> Sound(View())
    {
      ghost var e, ev := View(), Run(shortPacket, data, length, ended, callback);
      SubmitStarts(e, shortPacket, data, length, ended, CallOf(callback));
      ok := RunJob(shortPacket, data, length, ended, CallOf(callback));
      StepKeeps(e, ev);
    }

    /** Program the DMA channel with the next window. */
    method StartDma()
      requires cnt < size
      modifies this
      ensures View() == StartWindow(old(View()))
    {
      var next := size - cnt;
      var field;
      if MAX_TRANS < next {
        next := MAX_TRANS;
        field := 0;
      } else {
        field := Wrap16(next);
      }
      assert Window(cnt, next) == NextWindow(View()) && field == LengthField(size - cnt);
      var flush, early := false, false;
      if hw.dirIn {
        if next % hw.epSize != 0 {
          flush := true;
          short := false;
        }
      } else if !hw.iso || next <= hw.epSize {
        early := true;
      }
      hw := hw.(dma := Running(buf + cnt, field, flush, early), dmaIrq := true);
      log := log.(windows := log.windows + [Window(cnt, next)]);
      cnt := cnt + next;
      load := next;
    }

    /** `udd_ep_trans_done`. */
    method TransDone(ended: bool)
      modifies this
      ensures View() == Bulk.TransDone(old(View()), ended)
      decreases CallDepth(call), 3
    {
      if !busy {
        return;
      }
      if cnt < size {
        if hw.dirIn || !ended {
          StartDma();
          return;
        }
        size := cnt;
      }
      if hw.dirIn {
        if short {
          hw := hw.(zlpIrq := true, epIrq := true);
          return;
        }
      }
      FinishJob(false, false);
    }

    /** The job is cut to the bytes moved when the 16-bit remaining count is not zero. */
    method TakeCount(count: nat)
      requires hw.dma.Running? && count <= FieldLength(hw.dma.field)
      modifies this
      ensures View() == AfterDma(old(View()), count) && hw.dma.Idle? && !hw.dmaIrq
    {
      var rest := Wrap16(FieldLength(hw.dma.field) - count);
      hw := hw.(dma := Idle, dmaIrq := false);
      log := log.(moved := log.moved + count);
      if rest != 0 {
        cnt := if rest <= cnt then cnt - rest else 0;
        size := cnt;
      }
    }

    /**
     The DMA branch of `udd_ep_interrupt`: `count` bytes of the window were moved. Later reports stay
     right exactly if the 16-bit count told so or nobody is told.
     */
    method DmaInterrupt(count: nat, ended: bool)
      requires Valid() && Enabled(View(), DmaEnd(count, ended))
      modifies this
      ensures Valid() && View() == Step(old(View()), DmaEnd(count, ended))
      ensures hw.dmaIrq ==> hw.dma.Running?
      ensures old(Sound(View())) ==> (Trustworthy(View()) <==> old(Clean(View(), DmaEnd(count, ended))))
    {
      ghost var e := View();
      TakeCount(count);
      TransDoneFollows(View(), ended);
      TransDone(ended);
      StepKeeps(e, DmaEnd(count, ended));
    }

    /** A bank is free for the ZLP: in a clean run the job is complete and every byte of it was moved. */
    method BankInterrupt()
      requires Valid() && Enabled(View(), BankFree)
      modifies this
      ensures Valid() && View() == Step(old(View()), BankFree)
      ensures old(Sound(View())) ==> Sound(View()) && old(log.moved == log.asked || call.NoCall?)
    {
      ghost var e := View();
      hw := hw.(zlpIrq := false);
      FinishJob(false, true);
      StepKeeps(e, BankFree);
    }

    /** The background transfer before a stall has ended: the stall that was requested is raised. */
    method DrainedInterrupt()
      requires Valid() && Enabled(View(), BanksDrained)
      modifies this
      ensures Valid() && View() == Step(old(View()), BanksDrained)
      ensures old(stallReq) && !stallReq && hw.stalled && !hw.bankIrq && !hw.epIrq && busy == old(busy)
      ensures old(Sound(View())) ==> Sound(View())
    {
      ghost var e := View();
      assert stallReq;
      hw := hw.(bankIrq := false, epIrq := false);
      stallReq := false;
      hw := hw.(stalled := true);
      StepKeeps(e, BanksDrained);
    }

    /** `udd_ep_abort`: later reports stay right exactly if no ZLP was pending or the callback queues one. */
    method AbortJob()
      requires Valid()
      modifies this
      ensures Valid() && View() == Step(old(View()), Abort)
      ensures old(Sound(View())) ==> (Trustworthy(View()) <==> old(!hw.zlpIrq || ResubmitsEmpty(call)))
    {
      ghost var e := View();
      hw := hw.(dma := Idle);
      FinishJob(true, false);
      StepKeeps(e, Abort);
    }

    /** A bus reset kills the job and switches the endpoint off, so that no callback can start another. */
    method BusReset()
      requires Valid()
      modifies this
      ensures Valid() && View() == Step(old(View()), Bulk.BusReset)
      ensures !busy && !hw.enabled && !hw.stalled && hw.dma.Idle? && !hw.dmaIrq && !hw.zlpIrq && !hw.epIrq && !hw.bankIrq
      ensures hw.dirIn == old(hw.dirIn) && hw.epSize == old(hw.epSize) && (old(Sound(View())) ==> Sound(View()))
    {
      ghost var e := View();
      hw := ResetHw(hw);
      FinishDisabled(View(), true);
      FinishJob(true, false);
      StepKeeps(e, Bulk.BusReset);
    }

    /** The endpoint is configured again after a reset. */
    method EnableEndpoint()
      requires Valid() && !hw.enabled
      modifies this`hw
      ensures Valid() && View() == Step(old(View()), Enable) && (old(Sound(View())) ==> Sound(View()))
      ensures hw == old(hw).(enabled := true)
    {
      ghost var e := View();
      hw := hw.(enabled := true);
      StepKeeps(e, Enable);
    }

    /** `udd_ep_set_halt`: refused exactly while a transfer is in progress. */
    method SetEndpointHalt(banksBusy: bool) returns (ok: bool)
      requires Valid()
      modifies this
      ensures Valid() && View() == OnSetHalt(old(View()), banksBusy)
      ensures ok == !old(Transferring(View())) == Halted(View())
      ensures old(!hw.stalled && !stallReq && !busy) ==>
                if old(hw.dirIn) && banksBusy then stallReq && !hw.stalled && hw.bankIrq && hw.epIrq
                else hw.stalled && !stallReq && hw.bankIrq == old(hw.bankIrq)
      ensures old(hw.stalled || stallReq || busy) ==> View() == old(View())
      ensures old(Sound(View())) ==> Sound(View())
    {
      ghost var e := View();
      StepKeeps(e, SetHalt(banksBusy));
      if hw.stalled || stallReq {
        return true;
      }
      if busy {
        return false;
      }
      if hw.dirIn && banksBusy {
        stallReq := true;
        hw := hw.(bankIrq := true, epIrq := true);
        return true;
      }
      hw := hw.(stalled := true);
      return true;
    }

    /** `udd_ep_clear_halt`: only a callback registered for it is ever called. */
    method ClearEndpointHalt()
      requires Valid()
      modifies this
      ensures Valid() && View() == OnClearHalt(old(View()))
      ensures !hw.stalled && !stallReq && !hw.bankIrq && (old(stallReq) ==> !hw.epIrq)
      ensures log.misfired == old(log.misfired) && (old(Sound(View())) ==> Sound(View()))
      ensures old(hw.stalled || stallReq) ==> !busy && log.released == old(log.released) + if old(busy) then 1 else 0
      ensures !old(hw.stalled || stallReq) ==> View() == old(View())
    {
      ghost var e := View();
      StepKeeps(e, ClearHalt);
      ClearHaltRight(e);
      var cleared := false;
      if stallReq {
        stallReq := false;
        hw := hw.(bankIrq := false, epIrq := false);
        cleared := true;
      }
      if hw.stalled {
        hw := hw.(stalled := false);
        cleared := true;
      }
      if cleared && busy {
        assert call.Halt?;
        busy := false;
        log := log.(released := log.released + 1);
      }
    }

    /** `udd_ep_wait_stall_clear`: the callback is called at once or registered. */
    method WaitForStallClear() returns (ok: bool)
      requires Valid()
      modifies this
      ensures Valid() && View() == OnWaitStallClear(old(View()))
      ensures ok == (hw.enabled && !old(busy)) && (old(Sound(View())) ==> Sound(View()))
      ensures ok && old(hw.stalled || stallReq) ==>
                busy && call == Halt && log.waits == old(log.waits) + 1 && log.released == old(log.released)
      ensures ok && !old(hw.stalled || stallReq) ==>
                !busy && log.waits == old(log.waits) + 1 && log.released == old(log.released) + 1
      ensures !ok ==> View() == old(View())
    {
      ghost var e := View();
      StepKeeps(e, WaitStallClear);
      if !hw.enabled || busy {
        return false;
      }
      log := log.(waits := log.waits + 1);
      if hw.stalled || stallReq {
        busy := true;
        call := Halt;
      } else {
        log := log.(released := log.released + 1);
      }
      return true;
    }
  }
}
