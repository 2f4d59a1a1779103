/**
 Where exactly the bulk job engine stops reporting what was moved: an event of a clean run leaves
 every later report right if and only if it is clean itself.
 */
module BulkLimits {
  import opened Machine
  import opened Bulk
  import opened BulkProofs
  import opened BulkTiling
  import opened BulkRuns

  /** The 16-bit count is wrong exactly for a maximal window that ends before its first byte. */
  lemma CountExact(e: Ep, count: nat, ended: bool)
    requires Enabled(e, DmaEnd(count, ended))
    ensures Remaining(e, count) == FieldLength(e.hw.dma.field) - count <==> !(e.hw.dma.field == 0 && count == 0)
  {
  }

  // ----- runs of a few events -----

  lemma CleanNext(e: Ep, evs: seq<Event>, ev: Event)
    requires CleanRun(e, evs)
    requires var p := RunEvents(e, evs); Enabled(p, ev) ==> Clean(p, ev)
    ensures CleanRun(e, evs + [ev])
  {
    var all := evs + [ev];
    assert forall i :: 0 <= i <= |evs| ==> all[..i] == evs[..i];
  }

  lemma CleanAppend(e: Ep, ev: Event, evs: seq<Event>)
    requires Enabled(e, ev) && Clean(e, ev) && CleanRun(Step(e, ev), evs)
    ensures CleanRun(e, [ev] + evs)
  {
    var all := [ev] + evs;
    forall i | 0 <= i < |all|
      ensures var p := RunEvents(e, all[..i]); Enabled(p, all[i]) ==> Clean(p, all[i])
    {
      if i > 0 {
        assert all[..i] == [ev] + evs[..i - 1];
        RunAppend(e, ev, evs[..i - 1]);
      }
    }
  }

  /** A clean event cannot make an untrustworthy state trustworthy. */
  lemma TrustStep(e: Ep, ev: Event)
    requires Trustworthy(e) && Enabled(e, ev) && Clean(e, ev)
    ensures Trustworthy(Step(e, ev))
  {
    var s := Step(e, ev);
    forall evs | CleanRun(s, evs)
      ensures HonestSoFar(RunEvents(s, evs))
    {
      CleanAppend(e, ev, evs);
      RunAppend(e, ev, evs);
    }
  }

  lemma TrustNow(e: Ep)
    requires Trustworthy(e)
    ensures HonestSoFar(e)
  {
    assert CleanRun(e, []);
  }

  /** A state of a clean run is trustworthy. */
  lemma SoundTrust(e: Ep)
    requires Sound(e)
    ensures Trustworthy(e)
  {
    forall evs | CleanRun(e, evs)
      ensures HonestSoFar(RunEvents(e, evs))
    {
      SoundRun(e, evs);
    }
  }

  // ----- wrong reports -----

  /** A completion stays on record. */
  lemma OnRecord(e: Ep, abort: bool, zlp: bool)
    requires e.job.busy && e.job.call.Trans?
    ensures var r := FinishJob(e, abort, zlp);
            && |e.log.done| < |r.log.done| && r.log.done[|e.log.done|] == Completion(e, abort, zlp)
            && r.hw.dirIn == e.hw.dirIn && r.hw.epSize == e.hw.epSize
  {
    var c, cb := Completed(e, abort, zlp), e.job.call.cb;
    if cb.Resubmit? {
      RunFollows(c, cb.short, cb.buf, cb.size, cb.ended, CallOf(cb.next));
      assert c.log.done <= FinishJob(e, abort, zlp).log.done;
    }
  }

  lemma WrongReport(e: Ep, abort: bool, zlp: bool)
    requires e.job.busy && e.job.call.Trans? && !Honest(Completion(e, abort, zlp), e.hw.dirIn, e.hw.epSize)
    ensures !HonestSoFar(FinishJob(e, abort, zlp))
  {
    OnRecord(e, abort, zlp);
  }

  /** An OUT job that closes with a count that is not what was moved reports wrongly. */
  lemma WrongClose(e: Ep)
    requires e.job.busy && e.job.call.Trans? && !e.hw.dirIn && e.job.size != e.log.before + e.log.moved
    ensures !HonestSoFar(CloseJob(e))
  {
    WrongReport(e, false, false);
  }

  // ----- the 16-bit count -----

  lemma LostZlpNext(s: Ep)
    requires s.hw.dma.Running? && s.hw.dmaIrq && s.job.busy && s.job.call.Trans? && !s.hw.dirIn
    requires s.job.cnt <= s.job.size && FieldLength(s.hw.dma.field) == s.job.load
    requires s.log.before == 0 && s.log.moved + s.job.load + MAX_TRANS == s.job.cnt
    ensures !Trustworthy(s)
  {
    var ev := DmaEnd(s.job.load, true);
    assert Remaining(s, s.job.load) == 0;
    var b := AfterDma(s, s.job.load);
    WrongClose(b.(job := b.job.(size := b.job.cnt)));
    assert !HonestSoFar(Step(s, ev));
    if Trustworthy(s) {
      TrustStep(s, ev);
      TrustNow(Step(s, ev));
    }
  }

  /**
   A maximal window that ends before its first byte: the job goes on as if all of it had been
   moved, and is reported 65536 bytes too long, at once or at the end of its next window.
   */
  lemma LostZlp(e: Ep, ended: bool)
    requires Sound(e) && Enabled(e, DmaEnd(0, ended)) && !Clean(e, DmaEnd(0, ended))
    ensures !Trustworthy(Step(e, DmaEnd(0, ended)))
  {
    var a, s := AfterDma(e, 0), Step(e, DmaEnd(0, ended));
    assert InFlight(e) && !e.hw.dirIn && a.job == e.job && a.log.before == 0 && a.log.moved == a.job.cnt - MAX_TRANS;
    if a.job.cnt < a.job.size && !ended {
      assert s == StartWindow(a);
      LostZlpNext(s);
    } else {
      WrongClose(a.(job := a.job.(size := a.job.cnt)));
      if Trustworthy(s) {
        TrustNow(s);
      }
    }
  }

  // ----- the pending ZLP interrupt -----

  /** An idle IN endpoint with the interrupt of a ZLP nobody waits for. */
  predicate Stale(e: Ep) {
    && e.hw.dirIn && e.hw.enabled && e.hw.zlpIrq && e.hw.epIrq
    && !e.job.busy && !Halted(e)
  }

  /** A window in flight and the interrupt of an older ZLP. */
  predicate Overtaken(e: Ep) {
    && e.hw.dirIn && e.hw.enabled && e.hw.zlpIrq && e.hw.epIrq && e.hw.dma.Running? && e.hw.dmaIrq
    && e.job.busy && !e.job.call.Halt? && !Halted(e) && e.log.asked > 0 && e.log.moved == 0
  }

  lemma StaleRun(e: Ep, short: bool, buf: nat, size: nat, ended: bool, call: Call)
    requires Stale(e) && size > 0 && !call.Halt?
    ensures var r := RunJob(e, short, buf, size, ended, call).0; Overtaken(r) && r.job.call == call
  {
    var a := Accepted(e, short, buf, size, call);
    assert TransDone(a, ended) == StartWindow(a);
  }

  /** The interrupt completes the job although nothing of it has been moved. */
  lemma OvertakenReports(e: Ep)
    requires Overtaken(e) && e.job.call.Trans?
    ensures !Trustworthy(e)
  {
    var b := e.(hw := e.hw.(zlpIrq := false));
    WrongReport(b, false, true);
    if Trustworthy(e) {
      TrustStep(e, BankFree);
      TrustNow(Step(e, BankFree));
    }
  }

  lemma StrayWindow(z: Ep)
    requires z.hw.dirIn && z.hw.zlpIrq && z.hw.epIrq && z.hw.dma.Running? && z.hw.dmaIrq
    requires z.job.busy && z.job.call == Trans(Quiet) && z.job.short && z.job.size == z.log.asked == 0 && z.log.moved == 0
    ensures !Trustworthy(z)
  {
    var n := FieldLength(z.hw.dma.field);
    var ev := DmaEnd(n, false);
    var y := Step(z, ev);
    assert Remaining(z, n) == 0;
    assert y == CloseJob(AfterDma(z, n));
    WrongReport(y.(hw := y.hw.(zlpIrq := false)), false, true);
    if Trustworthy(z) {
      TrustStep(z, ev);
      TrustStep(y, BankFree);
      TrustNow(Step(y, BankFree));
    }
  }

  /** Without a callback the completion is silent, but the window goes on under an empty job. */
  lemma OvertakenSilent(e: Ep)
    requires Overtaken(e) && e.job.call.NoCall?
    ensures !Trustworthy(e)
  {
    var s := Step(e, BankFree);
    var empty := Run(false, 0, 0, false, Some(Quiet));
    var z := Step(s, empty);
    assert z == CloseJob(Accepted(s, false, 0, 0, Trans(Quiet)));
    StrayWindow(z);
    if Trustworthy(e) {
      TrustStep(e, BankFree);
      TrustStep(s, empty);
    }
  }

  lemma OvertakenBreaks(e: Ep)
    requires Overtaken(e)
    ensures !Trustworthy(e)
  {
    if e.job.call.Trans? {
      OvertakenReports(e);
    } else {
      OvertakenSilent(e);
    }
  }

  lemma StaleBreaks(e: Ep)
    requires Stale(e)
    ensures !Trustworthy(e)
  {
    var ev := Run(false, 0, 1, false, Some(Quiet));
    StaleRun(e, false, 0, 1, false, Trans(Quiet));
    OvertakenBreaks(Step(e, ev));
    if Trustworthy(e) {
      TrustStep(e, ev);
    }
  }

  /**
   An abort leaves the interrupt of a pending ZLP enabled: the next job, from the callback or
   later, is reported complete by it although its first window is still in flight.
   */
  lemma StaleZlp(e: Ep)
    requires Sound(e) && !Clean(e, Abort)
    ensures !Trustworthy(Step(e, Abort))
  {
    assert ZlpWaits(e) && Transferring(e);
    var a := e.(hw := e.hw.(dma := Idle));
    if e.job.call.Trans? && e.job.call.cb.Resubmit? {
      var cb := e.job.call.cb;
      var c := Completed(a, true, false);
      assert Step(e, Abort) == React(c, cb);
      StaleRun(c, cb.short, cb.buf, cb.size, cb.ended, CallOf(cb.next));
      OvertakenBreaks(Step(e, Abort));
    } else {
      assert Stale(Step(e, Abort)) by {
        assert e.job.call.Trans? ==> Step(e, Abort) == React(Completed(a, true, false), Quiet);
      }
      StaleBreaks(Step(e, Abort));
    }
  }

  // ----- runs that lead there -----

  /** The state after two events. */
  lemma RunTwo(e: Ep, first: Event, second: Event)
    requires Enabled(e, first) && Enabled(Step(e, first), second)
    ensures RunEvents(e, [first]) == Step(e, first)
    ensures RunEvents(e, [first, second]) == Step(Step(e, first), second)
  {
    RunNext(e, [], first);
    RunNext(e, [first], second);
    assert [] + [first] == [first] && [first] + [second] == [first, second];
  }

  lemma RunOne(e: Ep, ev: Event)
    requires Enabled(e, ev)
    ensures RunEvents(e, [ev]) == Step(e, ev)
    ensures Clean(e, ev) ==> CleanRun(e, [ev])
  {
    RunNext(e, [], ev);
    assert [] + [ev] == [ev];
    if Clean(e, ev) {
      CleanNext(e, [], ev);
    }
  }

  /** An empty IN job waits for its ZLP, so that an abort is not clean. */
  lemma StaleZlpReachable(e: Ep)
    requires Fresh(e) && e.hw.enabled && e.hw.dirIn
    ensures var evs := [Run(true, 0, 0, false, Some(Quiet))];
            CleanRun(e, evs) && !Clean(RunEvents(e, evs), Abort)
  {
    var ev := Run(true, 0, 0, false, Some(Quiet));
    var a := Accepted(e, true, 0, 0, Trans(Quiet));
    assert Step(e, ev) == TransDone(a, false) == CloseJob(a);
    RunOne(e, ev);
  }

  /** A maximal OUT window may end before its first byte. */
  lemma LostZlpReachable(e: Ep)
    requires Fresh(e) && e.hw.enabled && !e.hw.dirIn && !e.hw.iso
    ensures var evs := [Run(false, 0, MAX_TRANS, false, Some(Quiet))];
            && CleanRun(e, evs)
            && var p := RunEvents(e, evs); Enabled(p, DmaEnd(0, true)) && !Clean(p, DmaEnd(0, true))
  {
    var ev := Run(false, 0, MAX_TRANS, false, Some(Quiet));
    var a := Accepted(e, false, 0, MAX_TRANS, Trans(Quiet));
    assert Step(e, ev) == TransDone(a, false) == StartWindow(a);
    RunOne(e, ev);
  }

  /** A wait registered on a halted endpoint is what an abort misfires on. */
  lemma MisfireReachable(e: Ep)
    requires Fresh(e) && e.hw.enabled
    ensures var r := RunEvents(e, [SetHalt(false), WaitStallClear]);
            r.job.busy && Halted(r) && Step(r, Abort).log.misfired == 1
  {
    RunTwo(e, SetHalt(false), WaitStallClear);
  }

  // ----- the exact conditions -----

  /**
   In a state of a clean run, an event leaves every report of every clean continuation right if
   and only if the event is clean: not a maximal window that ends before its first byte under a
   job with a callback, and not an abort of a pending ZLP, unless the callback queues a ZLP again.
   */
  lemma ReportsExact(e: Ep, ev: Event)
    requires Sound(e) && Enabled(e, ev)
    ensures Trustworthy(Step(e, ev)) <==> Clean(e, ev)
  {
    if Clean(e, ev) {
      StepSound(e, ev);
      SoundTrust(Step(e, ev));
    } else if ev.Abort? {
      StaleZlp(e);
    } else {
      LostZlp(e, ev.ended);
    }
  }

  ghost predicate TrustworthyRun(e: Ep, evs: seq<Event>) {
    forall i :: 0 <= i <= |evs| ==> Trustworthy(RunEvents(e, evs[..i]))
  }

  lemma CleanTrusts(e: Ep, evs: seq<Event>)
    requires Sound(e) && CleanRun(e, evs)
    ensures TrustworthyRun(e, evs)
  {
    forall i | 0 <= i <= |evs|
      ensures Trustworthy(RunEvents(e, evs[..i]))
    {
      CleanPrefix(e, evs, i);
      SoundRun(e, evs[..i]);
      SoundTrust(RunEvents(e, evs[..i]));
    }
  }

  /** The first event that is not clean, and the state after it. */
  lemma {:induction false} FirstBreak(e: Ep, evs: seq<Event>) returns (i: nat)
    requires Sound(e) && !CleanRun(e, evs)
    ensures i <= |evs| && !Trustworthy(RunEvents(e, evs[..i]))
  {
    var k := |evs| - 1;
    if CleanRun(e, evs[..k]) {
      i := |evs|;
      assert evs[..i] == evs == evs[..k] + [evs[k]];
      var p := RunEvents(e, evs[..k]);
      RunNext(e, evs[..k], evs[k]);
      if Enabled(p, evs[k]) ==> Clean(p, evs[k]) {
        CleanNext(e, evs[..k], evs[k]);
        assert false;
      }
      SoundRun(e, evs[..k]);
      ReportsExact(p, evs[k]);
    } else {
      i := FirstBreak(e, evs[..k]);
      assert evs[..k][..i] == evs[..i];
    }
  }

  /** Over whole runs: every state of a run is trustworthy if and only if the run is clean. */
  lemma CleanRunExact(e: Ep, evs: seq<Event>)
    requires Sound(e)
    ensures TrustworthyRun(e, evs) <==> CleanRun(e, evs)
  {
    if CleanRun(e, evs) {
      CleanTrusts(e, evs);
    } else {
      var i := FirstBreak(e, evs);
    }
  }
}
