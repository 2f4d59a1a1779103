/**
 Restarting the job of an endpoint whose memory moves, as `udd_ep_alloc` does: where the job goes on,
 and exactly when its completion still reports the bytes moved since its submission.
 */
module EndpointRestart {
  import opened Machine
  import opened Bulk
  import opened BulkProofs
  import opened BulkTiling
  import opened BulkRuns
  import opened BulkLimits

  /** The counters of a transfer in progress are in order, so that it can be rewound. */
  predicate Restartable(e: Ep) {
    Transferring(e) ==> e.job.load <= e.job.cnt <= e.job.size && e.log.accepted > 0
  }

  /**
   The bytes moved since the job was started last; `partial` is what the DMA status shows as moved of
   the window under way.
   */
  function BytesMoved(e: Ep, partial: nat): nat
    requires e.job.load <= e.job.cnt
  {
    if e.hw.dma.Running? then e.job.cnt - e.job.load + partial else e.job.cnt
  }

  /** The job as the restart registers it: its remaining part, from the first byte of its last window on. */
  function Resubmitted(e: Ep, partial: nat): Ep
    requires e.job.load <= e.job.cnt <= e.job.size && e.log.accepted > 0
  {
    var at := e.job.cnt - e.job.load;
    var idle := e.(job := e.job.(busy := false, cnt := at), log := e.log.(accepted := e.log.accepted - 1));
    var a := Accepted(idle, e.job.short, e.job.buf + at, e.job.size - at, e.job.call);
    a.(log := a.log.(flagged := e.log.flagged, before := e.log.before + BytesMoved(e, partial)))
  }

  /**
   The restart: `udd_ep_run` on the remaining part, refused on a disabled or halted endpoint; a
   registered wait is dropped. The trace goes on with the submission of the job.
   */
  function Restart(e: Ep, ended: bool, partial: nat): (Ep, bool)
    requires Restartable(e)
  {
    if !e.job.busy then (e, true)
    else if e.job.call.Halt? || !e.hw.enabled || Halted(e) then
      (e.(job := e.job.(busy := false, cnt := (e.job.cnt - e.job.load) % 0x1_0000_0000)), false)
    else (TransDone(Resubmitted(e, partial), ended), true)
  }

  // ----- the counters of every run -----

  /** The last window lies behind the count, and an IN channel cannot end it early. */
  predicate Loaded(e: Ep) {
    Transferring(e) ==>
      && e.job.load <= e.job.cnt
      && (e.hw.dirIn && e.job.load > 0 && e.hw.dma.Running? ==> !e.hw.dma.early)
  }

  lemma FinishLoaded(e: Ep, abort: bool, zlp: bool)
    ensures Loaded(FinishJob(e, abort, zlp))
    decreases CallDepth(e.job.call), 1
  {
    if e.job.busy && e.job.call.Trans? {
      var c, cb := Completed(e, abort, zlp), e.job.call.cb;
      if cb.Resubmit? {
        RunLoaded(c, cb.short, cb.buf, cb.size, cb.ended, CallOf(cb.next));
      }
    }
  }

  lemma RunLoaded(e: Ep, short: bool, buf: nat, size: nat, ended: bool, call: Call)
    requires Loaded(e) && !call.Halt?
    ensures Loaded(RunJob(e, short, buf, size, ended, call).0)
    decreases CallDepth(call), 4
  {
    if e.hw.enabled && !Halted(e) && !e.job.busy {
      TransDoneLoaded(Accepted(e, short, buf, size, call), ended);
    }
  }

  lemma CloseLoaded(e: Ep)
    requires e.hw.dirIn ==> Loaded(e)
    ensures Loaded(CloseJob(e))
    decreases CallDepth(e.job.call), 2
  {
    if !(e.hw.dirIn && e.job.short) {
      FinishLoaded(e, false, false);
    }
  }

  lemma TransDoneLoaded(e: Ep, ended: bool)
    requires e.hw.dirIn ==> Loaded(e)
    ensures Loaded(TransDone(e, ended))
    decreases CallDepth(e.job.call), 3
  {
    if e.job.busy {
      if e.job.cnt >= e.job.size {
        CloseLoaded(e);
      } else if !e.hw.dirIn && ended {
        CloseLoaded(e.(job := e.job.(size := e.job.cnt)));
      }
    }
  }

  lemma DmaLoaded(e: Ep, count: nat, ended: bool)
    requires Loaded(e) && Enabled(e, DmaEnd(count, ended))
    ensures Loaded(Step(e, DmaEnd(count, ended)))
  {
    TransDoneLoaded(AfterDma(e, count), ended);
  }

  lemma StepLoaded(e: Ep, ev: Event)
    requires Loaded(e) && Enabled(e, ev)
    ensures Loaded(Step(e, ev))
  {
    match ev
    case Run(short, buf, size, ended, call) => RunLoaded(e, short, buf, size, ended, CallOf(call));
    case DmaEnd(count, ended) => DmaLoaded(e, count, ended);
    case BankFree => FinishLoaded(e.(hw := e.hw.(zlpIrq := false)), false, true);
    case Abort => FinishLoaded(e.(hw := e.hw.(dma := Idle)), true, false);
    case BusReset => FinishLoaded(e.(hw := ResetHw(e.hw)), true, false);
    case _ =>
  }

  lemma {:induction false} LoadedRun(e: Ep, evs: seq<Event>)
    requires Loaded(e)
    ensures Loaded(RunEvents(e, evs))
  {
    if evs != [] {
      var k := |evs| - 1;
      LoadedRun(e, evs[..k]);
      var p := RunEvents(e, evs[..k]);
      if Enabled(p, evs[k]) {
        StepLoaded(p, evs[k]);
      }
    }
  }

  /** In every run, clean or not, a transfer in progress can be rewound: the unsigned counters do not underflow. */
  lemma RestartableRun(e: Ep, evs: seq<Event>)
    requires Fresh(e)
    ensures Restartable(RunEvents(e, evs))
  {
    GeneralRun(e, evs);
    LoadedRun(e, evs);
  }

  /** In a state of a clean run too, wherever it comes from. */
  lemma SoundRestartable(e: Ep)
    requires Sound(e)
    ensures Restartable(e)
  {
  }

  // ----- where a restarted job goes on -----

  /** A job restarted with bytes left on a channel that may run is a window started. */
  lemma RestartStarts(e: Ep, ended: bool, partial: nat)
    requires Sound(e) && Transferring(e) && e.job.load > 0 && (e.hw.dirIn || !ended)
    ensures e.job.load <= e.job.cnt <= e.job.size && e.log.accepted > 0
    ensures Resubmitted(e, partial).job.cnt < Resubmitted(e, partial).job.size
    ensures Restart(e, ended, partial) == (StartWindow(Resubmitted(e, partial)), true)
  {
    SoundRestartable(e);
    var a := Resubmitted(e, partial);
    assert TransDone(a, ended) == StartWindow(a);
  }

  /**
   A job whose window is in flight resumes at the first byte of that window with the same DMA
   programming, the bytes from there on still to be moved; those before it are not moved again.
   */
  lemma RestartResumes(e: Ep, ended: bool, partial: nat)
    requires Sound(e) && Transferring(e) && e.hw.dma.Running? && (e.hw.dirIn || !ended)
    ensures e.job.load <= e.job.cnt && Restartable(e)
    ensures var (r, ok) := Restart(e, ended, partial);
            var at := e.job.cnt - e.job.load;
            && ok && r.job.busy && r.job.call == e.job.call
            && r.hw.dma == e.hw.dma && r.hw.dma.at == e.job.buf + at
            && r.job.buf == e.job.buf + at && r.job.size == r.log.asked == e.log.asked - at
            && r.log.before == e.log.before + at + partial
            && r.log.moved == 0 && r.log.done == e.log.done && r.log.accepted == e.log.accepted
  {
    RestartStarts(e, ended, partial);
    LengthFieldExact(e.job.size - (e.job.cnt - e.job.load));
  }

  // ----- restarts that go wrong -----

  /**
   A job that waits for its ZLP is restarted too: its last window, which has been moved already, is
   moved again, and the pending interrupt reports the job complete before that is done.
   */
  lemma RestartRepeatsWindow(e: Ep, ended: bool, partial: nat)
    requires Sound(e) && Transferring(e) && e.hw.zlpIrq && e.job.size > 0
    ensures e.job.load <= e.job.cnt && Restartable(e)
    ensures var (r, ok) := Restart(e, ended, partial);
            && ok && r.hw.dma.Running? && r.hw.dma.at == e.job.buf + e.job.cnt - e.job.load
            && 0 < r.job.size == e.job.load && r.hw.zlpIrq && !Trustworthy(r)
  {
    RestartStarts(e, ended, partial);
    OvertakenBreaks(Restart(e, ended, partial).0);
  }

  /** A window in flight of a job with a callback that has had bytes moved before its restart. */
  predicate Late(e: Ep) {
    && e.hw.dma.Running? && e.hw.dmaIrq && e.job.busy && e.job.call.Trans?
    && 0 < e.job.load == FieldLength(e.hw.dma.field) && e.job.cnt <= e.job.size
    && e.log.moved + e.job.load == e.job.cnt && e.log.before > 0
  }

  lemma LateCloses(e: Ep)
    requires e.job.busy && e.job.call.Trans? && e.job.size == e.log.moved && e.log.before > 0
    ensures !Trustworthy(CloseJob(e))
  {
    var s := CloseJob(e);
    if e.hw.dirIn && e.job.short {
      WrongReport(s.(hw := s.hw.(zlpIrq := false)), false, true);
      if Trustworthy(s) {
        TrustStep(s, BankFree);
        TrustNow(Step(s, BankFree));
      }
    } else {
      WrongReport(e, false, false);
      if Trustworthy(s) {
        TrustNow(s);
      }
    }
  }

  /** A full window, with more to come on an IN channel. */
  lemma LateNext(e: Ep)
    requires Late(e) && e.job.cnt < e.job.size && e.hw.dirIn
    ensures var s := Step(e, DmaEnd(e.job.load, true));
            Late(s) && s.job.size == e.job.size && s.job.cnt > e.job.cnt
  {
    var a := AfterDma(e, e.job.load);
    assert a.job == e.job;
    assert TransDone(a, true) == StartWindow(a);
    LengthFieldExact(a.job.size - a.job.cnt);
  }

  /** The last window. */
  lemma LateLast(e: Ep)
    requires Late(e) && !(e.job.cnt < e.job.size && e.hw.dirIn)
    ensures !Trustworthy(Step(e, DmaEnd(e.job.load, true)))
  {
    var a := AfterDma(e, e.job.load);
    assert a.job == e.job && a.log.moved == a.job.cnt;
    var c := a.(job := a.job.(size := a.job.cnt));
    assert TransDone(a, true) == CloseJob(c);
    LateCloses(c);
  }

  /** Once its last byte is moved, by full windows and a ZLP if one is due, such a job reports too little. */
  lemma {:induction false} LateBreaks(e: Ep)
    requires Late(e)
    ensures !Trustworthy(e)
    decreases e.job.size - e.job.cnt
  {
    var ev := DmaEnd(e.job.load, true);
    if e.job.cnt < e.job.size && e.hw.dirIn {
      LateNext(e);
      LateBreaks(Step(e, ev));
    } else {
      LateLast(e);
    }
    if Trustworthy(e) {
      TrustStep(e, ev);
    }
  }

  // ----- an OUT channel whose job is over -----

  /** The end of a window of a job that is over, on an OUT channel without a transfer. */
  predicate Orphan(e: Ep) {
    HonestSoFar(e) && !e.hw.dirIn && e.hw.dma.Running? && !e.hw.zlpIrq && !Transferring(e)
  }

  /** The invariants of clean runs, but for such a window. */
  predicate Stable(e: Ep) {
    General(e) && Laid(e) && (Exact(e) || Orphan(e))
  }

  /** The callbacks that find the channel free and start a window, at once or through further callbacks. */
  predicate StartsAgain(call: Call)
    decreases CallDepth(call)
  {
    && call.Trans? && call.cb.Resubmit?
    && ((call.cb.size > 0 && !call.cb.ended) || StartsAgain(CallOf(call.cb.next)))
  }

  /** The channel of an orphan is free for the next job. */
  predicate Available(e: Ep) {
    HonestSoFar(e) && !e.hw.dirIn && e.hw.dma.Running? && !e.hw.zlpIrq && e.hw.enabled && !Halted(e)
  }

  lemma OrphanRun(e: Ep, short: bool, buf: nat, size: nat, ended: bool, call: Call)
    requires Available(e) && !e.job.busy && !call.Halt?
    ensures var r := RunJob(e, short, buf, size, ended, call).0;
            (Exact(r) || Orphan(r)) && (Exact(r) <==> (size > 0 && !ended) || StartsAgain(call))
    decreases CallDepth(call), 2
  {
    var a := Accepted(e, short, buf, size, call);
    if size > 0 && !ended {
      assert TransDone(a, ended) == StartWindow(a);
      StartWindowExact(a);
    } else {
      var c := a.(job := a.job.(size := 0));
      assert TransDone(a, ended) == CloseJob(c);
      OrphanFinish(c);
    }
  }

  lemma OrphanFinish(e: Ep)
    requires Available(e) && Transferring(e) && e.job.size == e.log.moved == 0 && (e.job.call.Trans? ==> e.log.before == 0)
    ensures var r := CloseJob(e); (Exact(r) || Orphan(r)) && (Exact(r) <==> StartsAgain(e.job.call))
    decreases CallDepth(e.job.call), 1
  {
    assert CloseJob(e) == FinishJob(e, false, false);
    if e.job.call.Trans? {
      var c, cb := Completed(e, false, false), e.job.call.cb;
      assert Available(c);
      assert FinishJob(e, false, false) == React(c, cb);
      if cb.Resubmit? {
        OrphanRun(c, cb.short, cb.buf, cb.size, cb.ended, CallOf(cb.next));
      }
    }
  }

  lemma OrphanDma(e: Ep, count: nat, ended: bool)
    requires Orphan(e) && Enabled(e, DmaEnd(count, ended))
    ensures var r := Step(e, DmaEnd(count, ended)); Exact(r) || Orphan(r)
  {
    var a := AfterDma(e, count);
    assert Quiescent(a) && !Transferring(a);
    var r := TransDone(a, ended);
    if a.job.busy {
      if a.job.cnt >= a.job.size {
        assert r == CloseJob(a) == FinishJob(a, false, false);
        FinishExact(a, false, false);
      } else if ended {
        var c := a.(job := a.job.(size := a.job.cnt));
        assert r == CloseJob(c) == FinishJob(c, false, false);
        FinishExact(c, false, false);
      } else {
        assert r == StartWindow(a);
      }
    }
  }

  lemma OrphanHalt(e: Ep, banksBusy: bool)
    requires Orphan(e)
    ensures Orphan(OnSetHalt(e, banksBusy)) && Orphan(OnClearHalt(e)) && Orphan(OnWaitStallClear(e))
  {
  }

  lemma OrphanStep(e: Ep, ev: Event)
    requires General(e) && Orphan(e) && Enabled(e, ev)
    ensures Exact(Step(e, ev)) || Orphan(Step(e, ev))
  {
    match ev
    case Run(short, buf, size, ended, call) =>
      if e.hw.enabled && !Halted(e) && !e.job.busy {
        OrphanRun(e, short, buf, size, ended, CallOf(call));
      }
    case DmaEnd(count, ended) => OrphanDma(e, count, ended);
    case BankFree =>
    case Abort => FinishExact(e.(hw := e.hw.(dma := Idle)), true, false);
    case BusReset => FinishExact(e.(hw := ResetHw(e.hw)), true, false);
    case Enable =>
    case SetHalt(banksBusy) => OrphanHalt(e, banksBusy);
    case BanksDrained =>
    case ClearHalt => OrphanHalt(e, false);
    case WaitStallClear => OrphanHalt(e, false);
  }

  lemma StableStep(e: Ep, ev: Event)
    requires Stable(e) && Enabled(e, ev) && Clean(e, ev)
    ensures Stable(Step(e, ev))
  {
    StepGeneral(e, ev);
    StepLaid(e, ev);
    if Exact(e) {
      StepExact(e, ev);
    } else {
      OrphanStep(e, ev);
    }
  }

  lemma {:induction false} StableRun(e: Ep, evs: seq<Event>)
    requires Stable(e) && CleanRun(e, evs)
    ensures Stable(RunEvents(e, evs))
  {
    if evs != [] {
      var k := |evs| - 1;
      CleanPrefix(e, evs, k);
      StableRun(e, evs[..k]);
      var p := RunEvents(e, evs[..k]);
      if Enabled(p, evs[k]) {
        StableStep(p, evs[k]);
      }
    }
  }

  lemma StableTrust(e: Ep)
    requires Stable(e)
    ensures Trustworthy(e)
  {
    forall evs | CleanRun(e, evs)
      ensures HonestSoFar(RunEvents(e, evs))
    {
      StableRun(e, evs);
    }
  }

  // ----- the exact condition -----

  /** A restart keeps conservation, halt exclusion and tiling. */
  lemma RestartGeneral(e: Ep, ended: bool, partial: nat)
    requires General(e) && Laid(e) && Restartable(e) && Transferring(e)
    ensures General(Restart(e, ended, partial).0) && Laid(Restart(e, ended, partial).0)
  {
    TransDoneGeneral(Resubmitted(e, partial), ended);
    TransDoneLaid(Resubmitted(e, partial), ended);
  }

  /** An empty job that waits for its ZLP goes on waiting. */
  lemma RestartWaits(e: Ep, ended: bool, partial: nat)
    requires Sound(e) && Transferring(e) && e.hw.zlpIrq && e.job.size == 0
    ensures Restartable(e) && Exact(Restart(e, ended, partial).0) && Restart(e, ended, partial).1
  {
    SoundRestartable(e);
    var a := Resubmitted(e, partial);
    assert TransDone(a, ended) == CloseJob(a);
  }

  /** The flag of the job in progress is that of its submission. */
  lemma RestartFlag(e: Ep, partial: nat)
    requires Sound(e) && Transferring(e) && InFlight(e)
    ensures Restartable(e) && Resubmitted(e, partial).job.cnt < Resubmitted(e, partial).job.size
    ensures FlagRule(StartWindow(Resubmitted(e, partial)))
  {
    SoundRestartable(e);
    ResidueKept(|e.log.windows| - 1, e.job.load, e.hw.epSize);
  }

  /** A job in flight of which no byte was moved, or that reports to nobody, is started as if submitted anew. */
  lemma RestartFlies(e: Ep, ended: bool, partial: nat)
    requires Sound(e) && Transferring(e) && !e.hw.zlpIrq && (e.hw.dirIn || !ended)
    requires e.job.load <= e.job.cnt && (e.job.call.Trans? ==> BytesMoved(e, partial) == 0)
    ensures Restartable(e) && Exact(Restart(e, ended, partial).0)
  {
    RestartStarts(e, ended, partial);
    StartWindowFlies(Resubmitted(e, partial));
    RestartFlag(e, partial);
  }

  /** Otherwise it will report too little. */
  lemma RestartLate(e: Ep, ended: bool, partial: nat)
    requires Sound(e) && Transferring(e) && !e.hw.zlpIrq && (e.hw.dirIn || !ended)
    requires e.job.load <= e.job.cnt && e.job.call.Trans? && BytesMoved(e, partial) > 0
    ensures Restartable(e) && !Trustworthy(Restart(e, ended, partial).0)
  {
    RestartStarts(e, ended, partial);
    LengthFieldExact(e.job.size - (e.job.cnt - e.job.load));
    LateBreaks(Restart(e, ended, partial).0);
  }

  /**
   An OUT job whose last packet has arrived but whose interrupt has not been served is given up: it
   is reported complete with no byte, and the end of its window stays behind on the channel.
   */
  lemma RestartGivesUp(e: Ep, partial: nat)
    requires Sound(e) && Transferring(e) && !e.hw.dirIn
    ensures Restartable(e) && Restart(e, true, partial).1
    ensures e.job.call.Trans? ==>
              var ds := Restart(e, true, partial).0.log.done;
              && |ds| > |e.log.done| && ds[|e.log.done|].ok && ds[|e.log.done|].reported == 0
              && ds[|e.log.done|].before == BytesMoved(e, partial)
  {
    SoundRestartable(e);
    var a := Resubmitted(e, partial);
    var c := a.(job := a.job.(size := 0));
    assert TransDone(a, true) == CloseJob(c);
    assert CloseJob(c) == FinishJob(c, false, false);
    if e.job.call.Trans? {
      OnRecord(c, false, false);
    }
  }

  lemma GivesUpExact(e: Ep, partial: nat)
    requires Sound(e) && Transferring(e) && !e.hw.dirIn && e.job.load <= e.job.cnt
    requires e.job.call.Trans? ==> BytesMoved(e, partial) == 0
    ensures Restartable(e)
    ensures var r := Restart(e, true, partial).0; (Exact(r) || Orphan(r)) && (Exact(r) <==> StartsAgain(e.job.call))
  {
    SoundRestartable(e);
    var a := Resubmitted(e, partial);
    var c := a.(job := a.job.(size := 0));
    assert TransDone(a, true) == CloseJob(c);
    OrphanFinish(c);
  }

  /**
   When a restart is safe: no data stands before a pending ZLP, and no byte of the job has been moved
   yet or nobody will be told of it.
   */
  predicate RestartSafe(e: Ep, partial: nat)
    requires Restartable(e)
  {
    Transferring(e) ==>
      (e.hw.zlpIrq ==> e.job.size == 0) && (e.job.call.Trans? ==> BytesMoved(e, partial) == 0)
  }

  /** A restart that is safe keeps the invariants of clean runs, but for the window of a job given up. */
  lemma SafeRestart(e: Ep, ended: bool, partial: nat)
    requires Sound(e) && Transferring(e) && Restartable(e) && RestartSafe(e, partial)
    ensures var r := Restart(e, ended, partial).0;
            Stable(r) && (Exact(r) <==> e.hw.dirIn || !ended || StartsAgain(e.job.call))
  {
    RestartGeneral(e, ended, partial);
    if e.hw.zlpIrq {
      RestartWaits(e, ended, partial);
    } else if e.hw.dirIn || !ended {
      RestartFlies(e, ended, partial);
    } else {
      GivesUpExact(e, partial);
    }
  }

  /** One that is not leads to a wrong report. */
  lemma UnsafeRestart(e: Ep, ended: bool, partial: nat)
    requires Sound(e) && Transferring(e) && Restartable(e) && !RestartSafe(e, partial)
    ensures !Trustworthy(Restart(e, ended, partial).0)
  {
    if e.hw.zlpIrq {
      RestartRepeatsWindow(e, ended, partial);
    } else if e.hw.dirIn || !ended {
      RestartLate(e, ended, partial);
    } else {
      RestartGivesUp(e, partial);
      var r := Restart(e, ended, partial).0;
      assert !Honest(r.log.done[|e.log.done|], false, r.hw.epSize);
      GivesUpOut(e, partial);
      if Trustworthy(r) {
        TrustNow(r);
      }
    }
  }

  lemma GivesUpOut(e: Ep, partial: nat)
    requires Restartable(e) && Transferring(e) && e.hw.enabled && !Halted(e)
    ensures Restart(e, true, partial).0.hw.dirIn == e.hw.dirIn
  {
    TransDoneFollows(Resubmitted(e, partial), true);
  }

  /**
   The completion of a restarted job, and every report after it, tells the bytes moved since the
   submission if and only if the restart is safe. The restarted endpoint is in a state of a clean run
   if and only if moreover no end of transfer of an OUT channel is left unserved for good.
   */
  lemma RestartExact(e: Ep, ended: bool, partial: nat)
    requires Sound(e) && Transferring(e)
    ensures Restartable(e) && Restart(e, ended, partial).1
    ensures var r := Restart(e, ended, partial).0;
            && (Trustworthy(r) <==> RestartSafe(e, partial))
            && (Sound(r) <==> RestartSafe(e, partial) && (e.hw.dirIn || !ended || StartsAgain(e.job.call)))
  {
    SoundRestartable(e);
    var r := Restart(e, ended, partial).0;
    if RestartSafe(e, partial) {
      SafeRestart(e, ended, partial);
      StableTrust(r);
    } else {
      UnsafeRestart(e, ended, partial);
      if Sound(r) {
        SoundTrust(r);
      }
    }
  }

  // ----- runs that lead to unsafe restarts -----

  /** A first job: its first window is in flight. */
  lemma FirstWindow(e: Ep, short: bool, size: nat)
    requires Fresh(e) && e.hw.enabled && size > 0
    ensures var ev := Run(short, 0, size, false, Some(Quiet));
            && CleanRun(e, [ev]) && RunEvents(e, [ev]) == Step(e, ev)
            && Step(e, ev) == StartWindow(Accepted(e, short, 0, size, Trans(Quiet)))
  {
    var ev := Run(short, 0, size, false, Some(Quiet));
    var a := Accepted(e, short, 0, size, Trans(Quiet));
    assert Step(e, ev) == TransDone(a, false) == StartWindow(a);
    RunOne(e, ev);
  }

  /** It has been moved entirely. */
  lemma FirstWindowMoved(e: Ep, short: bool, size: nat)
    requires Fresh(e) && e.hw.enabled && size > 0
    ensures var first := Run(short, 0, size, false, Some(Quiet));
            var s, n := Step(e, first), Min(MAX_TRANS, size);
            && Enabled(s, DmaEnd(n, false))
            && CleanRun(e, [first, DmaEnd(n, false)])
            && RunEvents(e, [first, DmaEnd(n, false)]) == TransDone(AfterDma(s, n), false)
            && AfterDma(s, n).job == s.job
  {
    FirstWindow(e, short, size);
    LengthFieldExact(size);
    var first, second := Run(short, 0, size, false, Some(Quiet)), DmaEnd(Min(MAX_TRANS, size), false);
    RunTwo(e, first, second);
    CleanNext(e, [first], second);
    assert [first] + [second] == [first, second];
  }

  /** One byte of an IN job is in flight, restarted and moved. */
  lemma OneByteReported(p: Ep)
    requires p.hw.dirIn && p.hw.enabled && !Halted(p) && p.job.busy && p.job.call == Trans(Quiet) && !p.job.short
    requires p.job.load == 1 <= p.job.cnt == p.job.size && p.log.accepted > 0 && p.hw.dma.Running?
    ensures Restartable(p)
    ensures var r := Restart(p, false, 0).0;
            && Enabled(r, DmaEnd(1, false))
            && var ds := Step(r, DmaEnd(1, false)).log.done;
               && |ds| == |p.log.done| + 1
               && var d := ds[|p.log.done|];
                  d.ok && d.reported == 1 && d.before + d.moved == p.log.before + p.job.size
  {
    var x := Resubmitted(p, 0);
    var r := Restart(p, false, 0).0;
    assert r == TransDone(x, false) == StartWindow(x);
    assert FieldLength(r.hw.dma.field) == 1;
    var y := AfterDma(r, 1);
    assert Step(r, DmaEnd(1, false)) == CloseJob(y) == FinishJob(y, false, false);
    assert React(Completed(y, false, false), Quiet) == Completed(y, false, false);
  }

  /** The second window of 65537 bytes is in flight: the restarted job reports one byte. */
  lemma RestartLosesBytes(e: Ep)
    requires Fresh(e) && e.hw.enabled && e.hw.dirIn
    ensures var evs := [Run(false, 0, MAX_TRANS + 1, false, Some(Quiet)), DmaEnd(MAX_TRANS, false)];
            var p := RunEvents(e, evs);
            && CleanRun(e, evs) && Restartable(p) && !RestartSafe(p, 0)
            && var r := Restart(p, false, 0).0;
               && Enabled(r, DmaEnd(1, false))
               && var ds := Step(r, DmaEnd(1, false)).log.done;
                  |ds| == 1 && ds[0].ok && ds[0].reported == 1 && ds[0].before + ds[0].moved == MAX_TRANS + 1
  {
    var n := MAX_TRANS + 1;
    FirstWindow(e, false, n);
    FirstWindowMoved(e, false, n);
    var s := Step(e, Run(false, 0, n, false, Some(Quiet)));
    var b := AfterDma(s, MAX_TRANS);
    assert TransDone(b, false) == StartWindow(b);
    OneByteReported(StartWindow(b));
  }

  /** A job of one packet whose short packet is due leaves data before a pending ZLP. */
  lemma PendingZlpReachable(e: Ep)
    requires Fresh(e) && e.hw.enabled && e.hw.dirIn
    ensures var n := e.hw.epSize;
            var evs := [Run(true, 0, n, false, Some(Quiet)), DmaEnd(n, false)];
            var p := RunEvents(e, evs);
            CleanRun(e, evs) && p.hw.zlpIrq && Transferring(p) && p.job.size > 0
  {
    var n := e.hw.epSize;
    FirstWindow(e, true, n);
    FirstWindowMoved(e, true, n);
    var b := AfterDma(Step(e, Run(true, 0, n, false, Some(Quiet))), n);
    assert TransDone(b, false) == CloseJob(b);
  }

  /** An OUT window in flight may have its end unserved. */
  lemma OutWindowReachable(e: Ep)
    requires Fresh(e) && e.hw.enabled && !e.hw.dirIn
    ensures var evs := [Run(false, 0, 1, false, Some(Quiet))];
            var p := RunEvents(e, evs);
            CleanRun(e, evs) && Transferring(p) && p.hw.dma.Running? && Restartable(p) && !RestartSafe(p, 1)
  {
    FirstWindow(e, false, 1);
  }
}
