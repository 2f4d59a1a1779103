/**
 One bulk endpoint of `udphs_device.c`: its job, the DMA channel that moves it, the ZLP and halt
 machinery around it, and the callbacks that may submit the next job from inside a completion.
 */
module Bulk {
  import opened Machine

  /** UDD_ENDPOINT_MAX_TRANS. */
  const MAX_TRANS := 0x1_0000

  /** The endpoint sizes the 3-bit size field can express: `8 << field`. */
  type EpSize = x: int | x in {8, 16, 32, 64, 128, 256, 512, 1024} witness 8

  /**
   A transfer callback: it returns, or it first submits another job through `udd_ep_run`.
   `ended` is what the DMA status reads when that job looks at it.
   */
  datatype Callback = Quiet | Resubmit(short: bool, buf: nat, size: nat, ended: bool, next: Option<Callback>)

  /** The callback union of a job: NULL, `call_trans` or `call_nohalt`. */
  datatype Call = NoCall | Trans(cb: Callback) | Halt

  function CallOf(next: Option<Callback>): Call {
    match next
    case None => NoCall
    case Some(cb) => Trans(cb)
  }

  function Depth(cb: Callback): nat {
    match cb
    case Quiet => 1
    case Resubmit(_, _, _, _, None) => 2
    case Resubmit(_, _, _, _, Some(next)) => 2 + Depth(next)
  }

  function CallDepth(call: Call): nat {
    if call.Trans? then Depth(call.cb) else 0
  }

  /** The 16-bit length field of a DMA control word, and its meaning. */
  function LengthField(remaining: nat): HalfWord {
    if MAX_TRANS < remaining then 0 else Wrap16(remaining)
  }

  function FieldLength(field: HalfWord): nat {
    if field == 0 then MAX_TRANS else field
  }

  /**
   The DMA channel of an endpoint: address, length field, whether a last packet that is not full is
   sent (END_B_EN) and whether a short packet of the host ends the transfer (END_TR_EN).
   */
  datatype Dma = Idle | Running(at: nat, field: HalfWord, flush: bool, early: bool)

  datatype Window = Window(at: nat, len: nat)

  /** `udd_ep_job_t`; `buf` is the address of the buffer. */
  datatype Job = Job(busy: bool, call: Call, buf: nat, size: nat, cnt: nat, load: nat, short: bool, stallReq: bool)

  /** Endpoint and DMA registers. */
  datatype Hw = Hw(
    enabled: bool, dirIn: bool, iso: bool, epSize: EpSize, stalled: bool,
    dma: Dma, dmaIrq: bool, zlpIrq: bool, epIrq: bool, bankIrq: bool)

  /** A completion as the callback sees it, with the bytes really moved, the windows used and whether a ZLP closed it. */
  datatype Done = Done(
    ok: bool, reported: nat, before: nat, moved: nat, asked: nat, zlp: bool, flagged: bool, windows: seq<Window>)

  /**
   `asked`, `windows` and `moved` describe the job in progress since it was started last, `before`
   counts its bytes moved earlier, between its submission and a restart, and `flagged` is what its
   submission asked for; the rest counts jobs accepted and completed, waits for the end of a halt
   and what became of them.
   */
  datatype Trace = Trace(
    asked: nat, flagged: bool, windows: seq<Window>, before: nat, moved: nat,
    accepted: nat, done: seq<Done>, silent: nat, waits: nat, released: nat, misfired: nat)

  datatype Ep = Ep(job: Job, hw: Hw, log: Trace)

  predicate Halted(e: Ep) {
    e.hw.stalled || e.job.stallReq
  }

  // ----- the job engine -----

  function Completion(e: Ep, abort: bool, zlp: bool): Done {
    Done(!abort, e.job.size, e.log.before, e.log.moved, e.log.asked, zlp, e.log.flagged, e.log.windows)
  }

  /** `udd_ep_finish_job`: the callback is free to submit the next job before it returns. */
  function FinishJob(e: Ep, abort: bool, zlp: bool): Ep
    decreases CallDepth(e.job.call), 1
  {
    if !e.job.busy then e
    else
      var e1 := e.(job := e.job.(busy := false));
      match e.job.call
      case NoCall => e1.(log := e.log.(silent := e.log.silent + 1))
      case Halt => e1.(log := e.log.(misfired := e.log.misfired + 1))
      case Trans(cb) =>
        React(e1.(log := e.log.(done := e.log.done + [Completion(e, abort, zlp)])), cb)
  }

  /** What a transfer callback does to its own endpoint. */
  function React(e: Ep, cb: Callback): Ep
    decreases Depth(cb), 0
  {
    match cb
    case Quiet => e
    case Resubmit(short, buf, size, ended, next) => RunJob(e, short, buf, size, ended, CallOf(next)).0
  }

  /** `udd_ep_run`; the flag tells whether the job was accepted. */
  function RunJob(e: Ep, short: bool, buf: nat, size: nat, ended: bool, call: Call): (Ep, bool)
    requires !call.Halt?
    decreases CallDepth(call), 4
  {
    if !e.hw.enabled || Halted(e) || e.job.busy then (e, false)
    else (TransDone(Accepted(e, short, buf, size, call), ended), true)
  }

  /** The endpoint with a new job registered and no byte moved. */
  function Accepted(e: Ep, short: bool, buf: nat, size: nat, call: Call): Ep {
    e.(job := Job(true, call, buf, size, 0, 0, short || size == 0, e.job.stallReq),
       log := e.log.(asked := size, flagged := short || size == 0, windows := [], before := 0, moved := 0,
                     accepted := e.log.accepted + 1))
  }

  /** The next DMA window of the job. */
  function NextWindow(e: Ep): (w: Window)
    requires e.job.cnt <= e.job.size
  {
    Window(e.job.cnt, Min(MAX_TRANS, e.job.size - e.job.cnt))
  }

  /** Does the window leave a packet that is not full? */
  predicate Ragged(e: Ep, w: Window) {
    e.hw.dirIn && w.len % e.hw.epSize != 0
  }

  /** May a short packet end the window? Not for IN, nor for an isochronous window of several packets. */
  predicate MayEndEarly(e: Ep, w: Window) {
    !e.hw.dirIn && (!e.hw.iso || w.len <= e.hw.epSize)
  }

  /** The DMA channel is started on the next window. */
  function StartWindow(e: Ep): Ep
    requires e.job.cnt < e.job.size
  {
    var w := NextWindow(e);
    var ragged := Ragged(e, w);
    Ep(e.job.(cnt := e.job.cnt + w.len, load := w.len, short := e.job.short && !ragged),
       e.hw.(dma := Running(e.job.buf + w.at, LengthField(e.job.size - e.job.cnt), ragged, MayEndEarly(e, w)),
             dmaIrq := true),
       e.log.(windows := e.log.windows + [w]))
  }

  /** All data has been moved: wait for a bank for the ZLP, or complete the job. */
  function CloseJob(e: Ep): Ep
    decreases CallDepth(e.job.call), 2
  {
    if e.hw.dirIn && e.job.short then e.(hw := e.hw.(zlpIrq := true, epIrq := true))
    else FinishJob(e, false, false)
  }

  /**
   `udd_ep_trans_done`; `ended` is the end-of-transfer bit of the DMA status, which the hardware
   raises on OUT channels only. The data count never exceeds the size.
   */
  function TransDone(e: Ep, ended: bool): Ep
    decreases CallDepth(e.job.call), 3
  {
    if !e.job.busy then e
    else if e.job.cnt >= e.job.size then CloseJob(e)
    else if e.hw.dirIn || !ended then StartWindow(e)
    else CloseJob(e.(job := e.job.(size := e.job.cnt)))
  }

  // ----- events -----

  datatype Event =
    | Run(short: bool, buf: nat, size: nat, ended: bool, call: Option<Callback>)
    | DmaEnd(count: nat, ended: bool)
    | BankFree
    | Abort
    | BusReset
    | Enable
    | SetHalt(banksBusy: bool)
    | BanksDrained
    | ClearHalt
    | WaitStallClear

  /**
   A DMA event needs a window in flight and cannot move more than it; it moves less only where a
   short packet may end the window. The other interrupts need their enable bits.
   */
  predicate Enabled(e: Ep, ev: Event) {
    match ev
    case DmaEnd(count, _) =>
      && e.hw.dma.Running? && e.hw.dmaIrq && count <= FieldLength(e.hw.dma.field)
      && (!e.hw.dma.early ==> count == FieldLength(e.hw.dma.field))
    case BankFree => e.hw.epIrq && e.hw.zlpIrq
    case BanksDrained => e.hw.epIrq && e.hw.bankIrq
    case Enable => !e.hw.enabled
    case _ => true
  }

  /** The 16-bit remaining count the DMA status shows once `count` bytes have been moved. */
  function Remaining(e: Ep, count: nat): HalfWord
    requires e.hw.dma.Running? && count <= FieldLength(e.hw.dma.field)
  {
    Wrap16(FieldLength(e.hw.dma.field) - count)
  }

  /** The endpoint once the interrupt has read the count of a finished window. */
  function AfterDma(e: Ep, count: nat): Ep
    requires e.hw.dma.Running? && count <= FieldLength(e.hw.dma.field)
  {
    var rest := Remaining(e, count);
    var cnt := if rest <= e.job.cnt then e.job.cnt - rest else 0;
    Ep(if rest == 0 then e.job else e.job.(cnt := cnt, size := cnt),
       e.hw.(dma := Idle, dmaIrq := false),
       e.log.(moved := e.log.moved + count))
  }

  /** The registers after a bus reset. */
  function ResetHw(h: Hw): Hw {
    Hw(false, h.dirIn, h.iso, h.epSize, false, Idle, false, false, false, false)
  }

  function OnSetHalt(e: Ep, banksBusy: bool): Ep {
    if Halted(e) || e.job.busy then e
    else if e.hw.dirIn && banksBusy then
      e.(job := e.job.(stallReq := true), hw := e.hw.(bankIrq := true, epIrq := true))
    else e.(hw := e.hw.(stalled := true))
  }

  function OnClearHalt(e: Ep): Ep {
    if !Halted(e) then e
    else
      var irq := if e.job.stallReq then e.hw.(bankIrq := false, epIrq := false) else e.hw;
      var e1 := e.(job := e.job.(stallReq := false), hw := irq.(stalled := false));
      if !e.job.busy then e1
      else
        var log := if e.job.call.Halt? then e.log.(released := e.log.released + 1)
                   else e.log.(misfired := e.log.misfired + 1);
        e1.(job := e1.job.(busy := false), log := log)
  }

  function OnWaitStallClear(e: Ep): Ep {
    if !e.hw.enabled || e.job.busy then e
    else if Halted(e) then
      e.(job := e.job.(busy := true, call := Halt), log := e.log.(waits := e.log.waits + 1))
    else e.(log := e.log.(waits := e.log.waits + 1, released := e.log.released + 1))
  }

  function Step(e: Ep, ev: Event): Ep
    requires Enabled(e, ev)
  {
    match ev
    case Run(short, buf, size, ended, call) => RunJob(e, short, buf, size, ended, CallOf(call)).0
    case DmaEnd(count, ended) => TransDone(AfterDma(e, count), ended)
    case BankFree => FinishJob(e.(hw := e.hw.(zlpIrq := false)), false, true)
    case Abort => FinishJob(e.(hw := e.hw.(dma := Idle)), true, false)
    case BusReset => FinishJob(e.(hw := ResetHw(e.hw)), true, false)
    case Enable => e.(hw := e.hw.(enabled := true))
    case SetHalt(banksBusy) => OnSetHalt(e, banksBusy)
    case BanksDrained =>
      e.(job := e.job.(stallReq := false), hw := e.hw.(bankIrq := false, epIrq := false, stalled := true))
    case ClearHalt => OnClearHalt(e)
    case WaitStallClear => OnWaitStallClear(e)
  }

  // ----- runs -----

  ghost function RunEvents(e: Ep, evs: seq<Event>): Ep {
    if evs == [] then e
    else
      var p := RunEvents(e, evs[..|evs| - 1]);
      if Enabled(p, evs[|evs| - 1]) then Step(p, evs[|evs| - 1]) else p
  }

  /** A freshly allocated endpoint. */
  predicate Fresh(e: Ep) {
    && !e.job.busy && e.job.cnt <= e.job.size && !Halted(e)
    && e.hw.dma.Idle? && !e.hw.dmaIrq && !e.hw.zlpIrq && !e.hw.epIrq && !e.hw.bankIrq
    && e.log == Trace(0, false, [], 0, 0, 0, [], 0, 0, 0, 0)
  }

  // ----- invariants of every run -----

  function Count(b: bool): nat {
    if b then 1 else 0
  }

  /** Accepted jobs that are neither completed, nor silently ended, nor in progress. */
  function JobBalance(e: Ep): int {
    e.log.accepted - |e.log.done| - e.log.silent - Count(e.job.busy && !e.job.call.Halt?)
  }

  /** Waits for the end of a halt that are neither released, nor misfired, nor registered. */
  function WaitBalance(e: Ep): int {
    e.log.waits - e.log.released - e.log.misfired - Count(e.job.busy && e.job.call.Halt?)
  }

  predicate Conserved(e: Ep) {
    JobBalance(e) == 0 && WaitBalance(e) == 0
  }

  /** What an endpoint with a transfer job satisfies. */
  predicate Active(e: Ep) {
    e.hw.enabled && !e.job.call.Halt? && !Halted(e)
  }

  predicate Base(e: Ep) {
    Conserved(e) && (e.hw.bankIrq ==> e.job.stallReq) && e.job.cnt <= e.job.size
  }

  /** A busy endpoint is enabled, and halted exactly when what is registered is a wait for the end of the halt. */
  predicate General(e: Ep) {
    Base(e) && (e.job.busy ==> e.hw.enabled && (e.job.call.Halt? <==> Halted(e)))
  }

  predicate Transferring(e: Ep) {
    e.job.busy && !e.job.call.Halt?
  }

  function End(ws: seq<Window>): nat {
    if ws == [] then 0 else ws[|ws| - 1].at + ws[|ws| - 1].len
  }

  /** Consecutive windows inside the buffer, all but the last of the maximal length. */
  predicate Tiling(ws: seq<Window>, asked: nat) {
    && (forall i :: 0 <= i < |ws| ==>
          ws[i].at == MAX_TRANS * i && 0 < ws[i].len <= MAX_TRANS && ws[i].at + ws[i].len <= asked)
    && (forall i :: 0 <= i < |ws| - 1 ==> ws[i].len == MAX_TRANS)
  }

  predicate AllMaximal(ws: seq<Window>) {
    forall i :: 0 <= i < |ws| ==> ws[i].len == MAX_TRANS
  }

  predicate AllLaid(ds: seq<Done>) {
    forall i :: 0 <= i < |ds| ==> Tiling(ds[i].windows, ds[i].asked)
  }

  /** The windows of a job tile what they cover; as long as bytes are left they are all maximal. */
  predicate JobLaid(j: Job, l: Trace) {
    && Tiling(l.windows, l.asked) && j.cnt <= j.size <= l.asked
    && (j.cnt < j.size ==> j.size == l.asked && j.cnt == MAX_TRANS * |l.windows| && AllMaximal(l.windows))
  }

  predicate Laid(e: Ep) {
    AllLaid(e.log.done) && (Transferring(e) ==> JobLaid(e.job, e.log))
  }

  // ----- invariants of clean runs -----

  /** The job's callback answers with an empty job, which waits for a ZLP itself. */
  predicate ResubmitsEmpty(call: Call) {
    call.Trans? && call.cb.Resubmit? && call.cb.size == 0
  }

  /**
   A maximal window does not end before its first byte under a job with a callback, and no abort
   hits a pending ZLP unless the callback asks for a ZLP again.
   */
  predicate Clean(e: Ep, ev: Event) {
    match ev
    case DmaEnd(count, _) => !(e.hw.dma.Running? && e.hw.dma.field == 0 && count == 0 && e.job.call.Trans?)
    case Abort => !e.hw.zlpIrq || ResubmitsEmpty(e.job.call)
    case _ => true
  }

  ghost predicate CleanRun(e: Ep, evs: seq<Event>) {
    forall i :: 0 <= i < |evs| ==>
      var p := RunEvents(e, evs[..i]); Enabled(p, evs[i]) ==> Clean(p, evs[i])
  }

  /** What a completion must look like: an OK one reports the bytes moved since the submission and obeys the short-packet rule. */
  predicate Honest(d: Done, dirIn: bool, epSize: EpSize) {
    d.ok ==>
      && d.reported == d.before + d.moved && d.moved <= d.asked
      && (dirIn ==>
            && d.moved == d.asked == End(d.windows)
            && d.zlp == (d.flagged && d.asked % epSize == 0))
      && (!dirIn ==> !d.zlp)
  }

  predicate AllHonest(ds: seq<Done>, dirIn: bool, epSize: EpSize) {
    forall i :: 0 <= i < |ds| ==> Honest(ds[i], dirIn, epSize)
  }

  predicate HonestSoFar(e: Ep) {
    AllHonest(e.log.done, e.hw.dirIn, e.hw.epSize)
  }

  /** No continuation by clean events brings out a wrong report. */
  ghost predicate Trustworthy(e: Ep) {
    forall evs :: CleanRun(e, evs) ==> HonestSoFar(RunEvents(e, evs))
  }

  /** The bytes moved since the submission, as far as a callback will be told of them. */
  predicate Moved(e: Ep, n: nat) {
    e.job.call.Trans? ==> e.log.before == 0 && e.log.moved == n
  }

  /** The load is the length of the last window. */
  predicate LoadKnown(j: Job, l: Trace) {
    j.load == if l.windows == [] then 0 else l.windows[|l.windows| - 1].len
  }

  /** A window is in flight: everything before it has been moved, and it is the last one of the tiling. */
  predicate InFlight(e: Ep) {
    var j, h, l := e.job, e.hw, e.log;
    && h.dma.Running? && h.dmaIrq && !h.zlpIrq
    && 0 < j.load <= j.cnt && l.windows != [] && l.windows[|l.windows| - 1] == Window(j.cnt - j.load, j.load)
    && h.dma.at == j.buf + j.cnt - j.load && FieldLength(h.dma.field) == j.load
    && Moved(e, j.cnt - j.load) && j.cnt <= j.size == l.asked
    && j.load == Min(MAX_TRANS, l.asked - (j.cnt - j.load))
    && h.dma.flush == (h.dirIn && j.load % h.epSize != 0)
    && h.dma.early == (!h.dirIn && (!h.iso || j.load <= h.epSize))
  }

  /** Every byte has been moved and the ZLP waits for a bank. */
  predicate ZlpWaits(e: Ep) {
    var j, h, l := e.job, e.hw, e.log;
    && h.dirIn && h.zlpIrq && h.epIrq && h.dma.Idle?
    && j.short && j.cnt == j.size == l.asked == End(l.windows) && Moved(e, j.cnt) && LoadKnown(j, l)
  }

  /** The flag survives as long as only full packets have been queued. */
  predicate FlagRule(e: Ep) {
    e.hw.dirIn ==> e.job.short == (e.log.flagged && e.job.cnt % e.hw.epSize == 0)
  }

  /** The completions are honest, and the hardware is in the state the job says. */
  predicate Exact(e: Ep) {
    && HonestSoFar(e)
    && if Transferring(e) then FlagRule(e) && (InFlight(e) || ZlpWaits(e))
       else e.hw.dma.Idle? && !e.hw.zlpIrq
  }

  /** The invariants of clean runs. */
  predicate Sound(e: Ep) {
    General(e) && Laid(e) && Exact(e)
  }
}
