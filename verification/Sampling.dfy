/**
 The sampling engine of `src/main.c` as a state machine: the timer interrupt, the main-loop
 hand-offs, the USB completion callbacks, the start request and the start-of-frame action.
 The firmware variables are kept apart from the board around them (timer, USB transfers and
 the record of what crossed each boundary).
 */
module Sampling {
  import opened Machine

  const OUT_WORDS := 512
  const IN_WORDS := 1024
  const IN_ROW := 1025

  datatype Channel = ChanA | ChanB

  /** The wrapping slot counters and the buffer indices the timer interrupt moves. */
  datatype Position = Position(slotIn: Byte, slotOut: Byte, packetIn: Bit, packetOut: Bit, preroll: Byte)

  /** The flags through which the interrupt, the main loop and the USB callbacks hand buffers over. */
  datatype Handoff = Handoff(
    sendIdxIn: Bit, sendIdxOut: Bit, sendIn: bool, sendOut: bool, sendingIn: bool, sendingOut: bool)

  /** The global variables of the firmware. */
  datatype Firmware = Firmware(
    chan: Channel,
    pos: Position,
    hand: Handoff,
    sentOut: bool,
    startTimer: bool,
    startFrame: nat,
    packetsIn: seq<seq<HalfWord>>,
    packetsOut: seq<seq<HalfWord>>)
  {
    predicate Shaped() {
      && |packetsIn| == 2 && |packetsIn[0]| == IN_ROW && |packetsIn[1]| == IN_ROW
      && |packetsOut| == 2 && |packetsOut[0]| == OUT_WORDS && |packetsOut[1]| == OUT_WORDS
    }
  }

  function Store(rows: seq<seq<HalfWord>>, row: Bit, col: nat, w: HalfWord): (r: seq<seq<HalfWord>>)
    requires |rows| == 2 && col < |rows[row]|
  {
    var line: seq<HalfWord> := rows[row];
    var stored: seq<HalfWord> := line[col := w];
    rows[row := stored]
  }

  // ----- firmware steps -----

  /** The half-word the DAC receives in this interrupt. */
  function DacWord(f: Firmware): HalfWord
    requires f.Shaped()
  {
    f.packetsOut[f.pos.packetOut][f.pos.slotOut * 2 + if f.chan.ChanA? then 0 else 1]
  }

  /** The buffers after USART1 delivered `u1` and USART2 delivered `u2`. */
  function Capture(f: Firmware, u1: HalfWord, u2: HalfWord): (r: seq<seq<HalfWord>>)
    requires f.Shaped()
    ensures |r| == 2 && |r[0]| == |r[1]| == IN_ROW
  {
    var col := f.pos.slotIn * 4;
    match f.chan
    case ChanA => Store(Store(f.packetsIn, f.pos.packetIn, col, u1), f.pos.packetIn, col + 1, u2)
    case ChanB => Store(Store(f.packetsIn, f.pos.packetIn, col + 3, u1), f.pos.packetIn, col + 2, u2)
  }

  datatype Cell = Cell(row: Bit, col: nat)

  /** The cells of the input buffer an interrupt has written, in the order of the recording. */
  function TickCells(f: Firmware): (r: seq<Cell>)
    ensures |r| == 2
  {
    var col := f.pos.slotIn * 4 + if f.chan.ChanA? then 0 else 2;
    [Cell(f.pos.packetIn, col), Cell(f.pos.packetIn, col + 1)]
  }

  /** Case B of the interrupt on the counters. */
  function Advance(p: Position): Position {
    var slotIn := Wrap8(p.slotIn + 1);
    var slotOut := Wrap8(p.slotOut + 1);
    match slotOut
    case 0 => Position(slotIn, slotOut, p.packetIn, Flip(p.packetOut), p.preroll)
    case 2 => Position(slotIn, slotOut, Flip(p.packetIn), p.packetOut, p.preroll)
    case 4 => Position(Wrap8(slotIn - p.preroll), Wrap8(slotOut - p.preroll), p.packetIn, p.packetOut, 0)
    case _ => Position(slotIn, slotOut, p.packetIn, p.packetOut, p.preroll)
  }

  /** Case B of the interrupt on the hand-over flags. */
  function Request(h: Handoff, p: Position): Handoff {
    match Wrap8(p.slotOut + 1)
    case 0 => h.(sendIdxIn := p.packetIn, sendIn := true)
    case 127 => h.(sendIdxOut := Flip(p.packetOut), sendOut := true)
    case _ => h
  }

  /** The timer interrupt; `u1` and `u2` are the words USART1 and USART2 receive. */
  function TimerTick(f: Firmware, u1: HalfWord, u2: HalfWord): (r: Firmware)
    requires f.Shaped()
  {
    match f.chan
    case ChanA => f.(packetsIn := Capture(f, u1, u2), chan := ChanB)
    case ChanB => f.(packetsIn := Capture(f, u1, u2), chan := ChanA,
                     pos := Advance(f.pos), hand := Request(f.hand, f.pos))
  }

  /** Does the main loop hand a buffer to the IN endpoint? */
  predicate InReady(h: Handoff) {
    !h.sendingIn && h.sendIn
  }

  predicate OutReady(h: Handoff) {
    !h.sendingOut && h.sendOut
  }

  function MainIn(h: Handoff): Handoff {
    if InReady(h) then h.(sendIn := false, sendingIn := true) else h
  }

  function MainOut(h: Handoff): Handoff {
    if OutReady(h) then h.(sendOut := false, sendingOut := true) else h
  }

  function InReceived(f: Firmware, ok: bool): Firmware {
    if ok then f.(hand := f.hand.(sendingIn := false)) else f
  }

  function OutReceived(f: Firmware, ok: bool): Firmware {
    if ok then f.(hand := f.hand.(sendingOut := false)) else f
  }

  function OutReceivedFirst(f: Firmware, ok: bool): Firmware {
    if ok
    then f.(startTimer := f.startTimer || !f.sentOut, sentOut := true, hand := f.hand.(sendingOut := false))
    else f
  }

  predicate SofStarts(f: Firmware, frame: nat) {
    f.startTimer && (frame == f.startFrame || f.startFrame == 0)
  }

  function SofAction(f: Firmware, frame: nat): Firmware {
    if SofStarts(f, frame) then f.(startTimer := false) else f
  }

  /** Request 0xC5 with a sampling period: note that `startTimer` keeps its value. */
  function StartRequest(f: Firmware, frame: nat): Firmware {
    f.(chan := ChanA, pos := Position(254, 0, 0, 0, 4), hand := Handoff(0, 0, false, false, false, true),
       startFrame := frame, sentOut := false)
  }

  // ----- the board around the firmware -----

  datatype OutJob = OutIdle | OutBusy(target: Bit, count: nat, first: bool)
  datatype InJob = InIdle | InBusy(target: Bit, count: nat)

  /**
   `played`: half-words sent to the DAC since the last start; `captured`: ADC words in the
   order voltage 1, voltage 2, current 2, current 1 for each sample pair; `arrived` and
   `delivered`: half-words received from and sent to the host; `outDone` and `inDone`:
   completed transfers.
   */
  datatype Board = Board(
    fw: Firmware,
    timerOn: bool,
    outJob: OutJob,
    inJob: InJob,
    played: seq<HalfWord>,
    captured: seq<HalfWord>,
    arrived: seq<HalfWord>,
    delivered: seq<HalfWord>,
    outDone: nat,
    inDone: nat)

  datatype Event =
    | Timer(u1: HalfWord, u2: HalfWord)
    | LoopIn
    | LoopOut
    | UsbOutWord(w: HalfWord)
    | UsbOutDone
    | UsbInWord
    | UsbInDone
    | Sof(frame: nat)
    | Start(startFrame: nat)
    | Stop

  /** What the surroundings may do: no tick without the timer, no word without a transfer. */
  predicate Enabled(b: Board, e: Event) {
    match e
    case Timer(_, _) => b.timerOn
    case UsbOutWord(_) => b.outJob.OutBusy? && b.outJob.count < OUT_WORDS
    case UsbOutDone => b.outJob.OutBusy? && b.outJob.count == OUT_WORDS
    case UsbInWord => b.inJob.InBusy? && b.inJob.count < IN_WORDS
    case UsbInDone => b.inJob.InBusy? && b.inJob.count == IN_WORDS
    case Start(_) => !b.timerOn && !b.fw.startTimer
    case _ => true
  }

  function Next(b: Board, e: Event): (r: Board)
    requires b.fw.Shaped() && Enabled(b, e)
    ensures r.fw.Shaped()
  {
    match e
    case Timer(u1, u2) =>
      b.(fw := TimerTick(b.fw, u1, u2),
         played := b.played + [DacWord(b.fw)],
         captured := b.captured + if b.fw.chan.ChanA? then [u1, u2] else [u2, u1])
    case LoopIn =>
      var h := b.fw.hand;
      b.(fw := b.fw.(hand := MainIn(h)),
         inJob := if InReady(h) && b.inJob.InIdle? then InBusy(h.sendIdxIn, 0) else b.inJob)
    case LoopOut =>
      var h := b.fw.hand;
      b.(fw := b.fw.(hand := MainOut(h)),
         outJob := if OutReady(h) && b.outJob.OutIdle? then OutBusy(h.sendIdxOut, 0, false) else b.outJob)
    case UsbOutWord(w) =>
      b.(fw := b.fw.(packetsOut := Store(b.fw.packetsOut, b.outJob.target, b.outJob.count, w)),
         outJob := b.outJob.(count := b.outJob.count + 1),
         arrived := b.arrived + [w])
    case UsbOutDone =>
      b.(fw := if b.outJob.first then OutReceivedFirst(b.fw, true) else OutReceived(b.fw, true),
         outJob := OutIdle, outDone := b.outDone + 1)
    case UsbInWord =>
      b.(delivered := b.delivered + [b.fw.packetsIn[b.inJob.target][b.inJob.count]],
         inJob := b.inJob.(count := b.inJob.count + 1))
    case UsbInDone =>
      b.(fw := InReceived(b.fw, true), inJob := InIdle, inDone := b.inDone + 1)
    case Sof(frame) =>
      b.(fw := SofAction(b.fw, frame), timerOn := b.timerOn || SofStarts(b.fw, frame))
    case Start(frame) => Launch(b, frame)
    case Stop =>
      b.(timerOn := false)
  }

  /** Request 0xC5: both transfers are aborted, their callbacks ignore that, and packet 0 is requested. */
  function Launch(b: Board, frame: nat): (r: Board)
    requires b.fw.Shaped()
    ensures r.fw.Shaped()
  {
    Board(StartRequest(OutReceived(InReceived(b.fw, false), false), frame), b.timerOn,
          OutBusy(0, 0, true), InIdle, [], [], [], [], 0, 0)
  }

  // ----- runs -----

  /** The board after the events `es`, none of which happens when it is not enabled. */
  ghost function Run(b: Board, es: seq<Event>): (r: Board)
    requires b.fw.Shaped()
    ensures r.fw.Shaped()
  {
    if es == [] then b
    else
      var p := Run(b, es[..|es| - 1]);
      if Enabled(p, es[|es| - 1]) then Next(p, es[|es| - 1]) else p
  }

  /** The list of written cells after one more event. */
  function NextTargets(b: Board, e: Event, ts: seq<Cell>): seq<Cell> {
    match e
    case Timer(_, _) => ts + TickCells(b.fw)
    case Start(_) => []
    case _ => ts
  }

  /** The cells written by the interrupts since the last start. */
  ghost function Targets(b: Board, es: seq<Event>): seq<Cell>
    requires b.fw.Shaped()
  {
    if es == [] then []
    else
      var k := |es| - 1;
      var p, ts := Run(b, es[..k]), Targets(b, es[..k]);
      if Enabled(p, es[k]) then NextTargets(p, es[k], ts) else ts
  }

  /** The tick that wraps the output slot counter. */
  predicate Wraps(b: Board, e: Event) {
    e.Timer? && b.fw.chan.ChanB? && b.fw.pos.slotOut == 255
  }

  /** An OUT transfer requested at slot 127 completes before the slot counter wraps. */
  predicate OutTimely(b: Board, e: Event) {
    Wraps(b, e) ==> !b.fw.hand.sendOut && !b.fw.hand.sendingOut
  }

  /**
   An IN transfer completes before the next hand-over, and does not fetch a half-word of
   slots 254 and 255 before the pair that fills it: the fetch of word `x` waits for
   captured word `24 + x`.
   */
  predicate InTimely(b: Board, e: Event) {
    && (Wraps(b, e) ==> !b.fw.hand.sendIn && !b.fw.hand.sendingIn)
    && (e.UsbInWord? ==> 24 + |b.delivered| < |b.captured|)
  }

  ghost predicate OutTimelyRun(b: Board, es: seq<Event>)
    requires b.fw.Shaped()
  {
    forall i :: 0 <= i < |es| ==> OutTimely(Run(b, es[..i]), es[i])
  }

  ghost predicate InTimelyRun(b: Board, es: seq<Event>)
    requires b.fw.Shaped()
  {
    forall i :: 0 <= i < |es| ==> InTimely(Run(b, es[..i]), es[i])
  }

  // ----- invariants -----

  /** The packet being played after `n` sample pairs, the pre-roll being over. */
  function PacketAt(n: nat): nat
    requires n >= 4
  {
    (n - 4) / 256
  }

  /** The output slot after `n` sample pairs, the pre-roll being over. */
  function SlotAt(n: nat): nat
    requires n >= 4
  {
    (n - 4) % 256
  }

  /** Counters while slot `k` of packet `q` is being played. */
  predicate AtPhase(p: Position, q: nat, k: nat) {
    && p.slotOut == k && p.slotIn == (if k < 2 then k + 254 else k - 2)
    && p.packetOut == q % 2 && p.packetIn == (if k < 2 then (q + 1) % 2 else q % 2)
    && p.preroll == 0
  }

  /** The counters are functions of the number of sample pairs. */
  predicate CountersAt(p: Position, n: nat) {
    if n < 4
    then p == Position(if n < 2 then n + 254 else n - 2, n, if n < 2 then 0 else 1, 0, 4)
    else AtPhase(p, PacketAt(n), SlotAt(n))
  }

  predicate Counters(b: Board) {
    var m := |b.captured|;
    && b.fw.Shaped()
    && m % 4 == (if b.fw.chan.ChanA? then 0 else 2)
    && 2 * |b.played| == m
    && CountersAt(b.fw.pos, m / 4)
  }

  /** OUT transfers requested after `n` sample pairs, the first one included. */
  function OutRequested(n: nat): nat {
    if n < 4 then 1 else PacketAt(n) + if SlotAt(n) < 127 then 1 else 2
  }

  /** IN buffers handed over after `n` sample pairs. */
  function InRequested(n: nat): nat {
    if n < 4 then 0 else PacketAt(n)
  }

  function Busy(busy: bool): nat {
    if busy then 1 else 0
  }

  /**
   Hand-shake of the OUT direction after `n` pairs: transfer `p` fills row `p % 2`, at most one
   is in progress, and the packet being played has been received.
   */
  predicate OutFlow(n: nat, h: Handoff, job: OutJob, done: nat) {
    var issued := done + Busy(job.OutBusy?);
    && h.sendingOut == job.OutBusy?
    && issued + Busy(h.sendOut) == OutRequested(n)
    && (h.sendOut ==> h.sendIdxOut == issued % 2)
    && (job.OutBusy? ==> job.target == done % 2 && job.count <= OUT_WORDS)
    && (n >= 4 ==> done > PacketAt(n))
  }

  /** The timer runs only once packet 0 has been received. */
  predicate OutStart(b: Board) {
    && (b.outJob.OutBusy? ==> b.outJob.first == (b.outDone == 0))
    && (b.outDone == 0 ==> b.outJob.OutBusy? && !b.timerOn && !b.fw.startTimer && b.captured == [])
    && b.fw.sentOut == (b.outDone >= 1)
    && |b.arrived| == 512 * b.outDone + (if b.outJob.OutBusy? then b.outJob.count else 0)
  }

  /** Where the `x`-th half-word from the host is stored. */
  function OutRowOf(x: nat): Bit {
    (x / 512) % 2
  }

  function OutColOf(x: nat): nat {
    x % 512
  }

  /** A received half-word stays in its row until the half-word 1024 later replaces it. */
  predicate OutRows(b: Board)
    requires b.fw.Shaped()
  {
    forall x :: 0 <= x < |b.arrived| <= x + 1024 ==> b.fw.packetsOut[OutRowOf(x)][OutColOf(x)] == b.arrived[x]
  }

  /** The DAC recording is slots 0 to 3 of packet 0, then the host stream from its beginning. */
  predicate PlaysStream(played: seq<HalfWord>, arrived: seq<HalfWord>) {
    if |played| <= 8 then played <= arrived
    else 8 <= |arrived| && |played| - 8 <= |arrived| && played == arrived[..8] + arrived[..|played| - 8]
  }

  predicate OutInv(b: Board) {
    && Counters(b)
    && OutFlow(|b.captured| / 4, b.fw.hand, b.outJob, b.outDone)
    && OutStart(b)
    && OutRows(b)
    && PlaysStream(b.played, b.arrived)
  }

  /** Where the `w`-th captured word is stored, the pre-roll being over. */
  function InRowOf(w: nat): Bit {
    (1 + (w + 1000) / 1024) % 2
  }

  function InColOf(w: nat): nat {
    (w + 1000) % 1024
  }

  /** A captured word stays in its row until the word 2048 later replaces it. */
  predicate InRows(b: Board)
    requires b.fw.Shaped()
  {
    forall w :: 16 <= w < |b.captured| <= w + 2048 ==> b.fw.packetsIn[InRowOf(w)][InColOf(w)] == b.captured[w]
  }

  /** The words of the first two pairs lie in slots 254 and 255 of row 0 until word 1040 and those after it replace them. */
  predicate PrerollRow(b: Board)
    requires b.fw.Shaped()
  {
    forall w :: 0 <= w < 8 && w < |b.captured| <= w + 1040 ==> b.fw.packetsIn[0][1016 + w] == b.captured[w]
  }

  /** What the input buffer holds in every run. */
  predicate InCells(b: Board) {
    Counters(b) && InRows(b) && PrerollRow(b)
  }

  /** Hand-shake of the IN direction after `n` pairs: transfer `k` reads row `k % 2`. */
  predicate InFlow(n: nat, h: Handoff, job: InJob, done: nat, words: nat) {
    var issued := done + Busy(job.InBusy?);
    && h.sendingIn == job.InBusy?
    && issued + Busy(h.sendIn) == InRequested(n)
    && (h.sendIn ==> h.sendIdxIn == issued % 2)
    && (job.InBusy? ==> job.target == done % 2 && job.count <= IN_WORDS)
    && words == 1024 * done + (if job.InBusy? then job.count else 0)
    && done + 1 >= InRequested(n)
  }

  /** The host has received the ADC stream from its seventh pair on. */
  predicate ReceivesStream(delivered: seq<HalfWord>, captured: seq<HalfWord>) {
    delivered != [] ==> 24 + |delivered| <= |captured| && delivered == captured[24..24 + |delivered|]
  }

  predicate InInv(b: Board) {
    && InCells(b)
    && InFlow(|b.captured| / 4, b.fw.hand, b.inJob, b.inDone, |b.delivered|)
    && ReceivesStream(b.delivered, b.captured)
  }
}
