/**
 The control endpoint of `udphs_device.c`: the SETUP / DATA / STATUS machine that cuts an IN
 payload into packets and puts an OUT payload together, as functions on one state value.
 */
module Control {
  import opened Machine

  /** USB_DEVICE_EP_CTRL_SIZE. */
  const PACKET := 64

  datatype Stage = Setup | DataOut | DataIn | WaitInZlp | WaitOutZlp | StallReq

  /**
   `udd_g_ctrlreq`. `payload` is the whole buffer the core installed, `size` the part of it
   that may be used; callbacks are numbered in the order they are registered.
   */
  datatype Request = Request(
    isIn: bool, wLength: HalfWord, payload: seq<Byte>, size: HalfWord, callback: Option<nat>, overUnder: bool)

  /** Interrupt enables of endpoint 0 and its stall request. */
  datatype Irq = Irq(tx: bool, nakIn: bool, nakOut: bool, stall: bool)

  /**
   What crossed the boundary for the current request: the data packets sent, the bytes of the
   payload buffers already used up, the bytes stored in the current buffer and what that buffer
   held when it was installed.
   */
  datatype Log = Log(packets: seq<seq<Byte>>, offered: seq<Byte>, got: seq<Byte>, base: seq<Byte>)

  /** The completion callbacks registered so far: those called, in order, and the number forgotten. */
  datatype Calls = Calls(done: seq<nat>, registered: nat, dropped: nat)

  datatype Ctrl = Ctrl(
    stage: Stage, req: Request, prev: HalfWord, cnt: HalfWord, short: bool, irq: Irq, log: Log, calls: Calls)
  {
    /** The data counter stays inside the payload, and the payload inside its buffer. */
    predicate Bounded() {
      cnt <= req.size <= |req.payload|
    }

    predicate InData() {
      stage.DataIn? || stage.DataOut?
    }
  }

  /** What `udc_process_setup` leaves behind. */
  datatype Core = Core(ok: bool, payload: seq<Byte>, size: HalfWord, callback: bool, overUnder: bool)

  /** What `over_under_run` answers: false, true with the same buffer, or true with another one. */
  datatype Answer = Refuse | Keep | Supply(payload: seq<Byte>, size: HalfWord)

  predicate AnswerOk(a: Answer) {
    a.Supply? ==> a.size <= |a.payload|
  }

  /** The core rejects an IN request of length 0 and announces no more than it has. */
  predicate CoreOk(isIn: bool, wLength: HalfWord, core: Core) {
    core.size <= |core.payload| && (isIn && wLength == 0 ==> !core.ok)
  }

  // ----- small steps -----

  function EndOfRequest(c: Ctrl): Ctrl {
    if c.req.callback.Some? then c.(calls := c.calls.(done := c.calls.done + [c.req.callback.value])) else c
  }

  /** The callback is forgotten without having been called. */
  function Drop(c: Ctrl): Ctrl {
    if c.req.callback.Some? then c.(calls := c.calls.(dropped := c.calls.dropped + 1)) else c
  }

  function Init(c: Ctrl): Ctrl {
    c.(stage := Setup, irq := c.irq.(tx := false), req := c.req.(callback := None, overUnder := false, size := 0))
  }

  function StallData(c: Ctrl): Ctrl {
    c.(stage := StallReq, irq := c.irq.(stall := true))
  }

  function SendZlpIn(c: Ctrl): Ctrl {
    c.(stage := WaitInZlp, irq := c.irq.(tx := true, nakOut := true))
  }

  function SendZlpOut(c: Ctrl): Ctrl {
    c.(stage := WaitOutZlp, irq := c.irq.(nakIn := true))
  }

  /** A payload buffer is installed. */
  function Install(c: Ctrl, payload: seq<Byte>, size: HalfWord): Ctrl {
    c.(req := c.req.(payload := payload, size := size), log := c.log.(got := [], base := payload))
  }

  function Answered(c: Ctrl, a: Answer): Ctrl {
    match a
    case Refuse => c
    case Keep => Install(c, c.req.payload, c.req.size)
    case Supply(payload, size) => Install(c, payload, size)
  }

  // ----- IN data stage -----

  /** The bytes the next IN packet would carry. */
  function NextPacket(c: Ctrl): (r: seq<Byte>)
    requires c.Bounded()
    ensures |r| == Min(PACKET, c.req.size - c.cnt)
  {
    c.req.payload[c.cnt..c.cnt + Min(PACKET, c.req.size - c.cnt)]
  }

  /** Send the next packet unless the host has already ended the stage with an OUT packet. */
  function SendPacket(c: Ctrl, outNow: bool): Ctrl
    requires c.Bounded()
  {
    var p := NextPacket(c);
    if outNow then c.(short := |p| < PACKET, stage := WaitOutZlp)
    else c.(short := |p| < PACKET, cnt := c.cnt + |p|, irq := c.irq.(tx := true),
            log := c.log.(packets := c.log.packets + [p]))
  }

  /** The bytes of the current buffer join those of the buffers before it. */
  function UsedUp(c: Ctrl): Ctrl
    requires c.cnt <= |c.req.payload|
  {
    c.(log := c.log.(offered := c.log.offered + c.req.payload[..c.cnt]))
  }

  /** The payload is used up: ask for another buffer, or keep the empty rest of this one. */
  function Refilled(c: Ctrl, a: Answer): (r: Ctrl)
    requires c.Bounded() && c.cnt == c.req.size && AnswerOk(a)
    ensures r.Bounded()
  {
    if !c.req.overUnder || a.Refuse? then c
    else Answered(UsedUp(c), a).(cnt := 0)
  }

  /** The IN data stage goes on, or ends because enough or a short packet has been sent. */
  function InContinue(c: Ctrl, a: Answer, outNow: bool): Ctrl
    requires c.Bounded() && AnswerOk(a)
  {
    if c.req.size != c.cnt then SendPacket(c, outNow)
    else
      var c2 := c.(prev := Wrap16(c.prev + c.cnt));
      if c.req.wLength == c2.prev || c.short then SendZlpOut(c2)
      else SendPacket(Refilled(c2, a), outNow)
  }

  /** `udd_ctrl_in_sent`; in the stages its assertion excludes, nothing happens. */
  function InSent(c: Ctrl, a: Answer, outNow: bool): Ctrl
    requires c.stage.DataIn? ==> c.Bounded()
    requires AnswerOk(a)
  {
    var c1 := c.(irq := c.irq.(tx := false));
    if c.stage.WaitInZlp? then Init(EndOfRequest(c1))
    else if c.stage.DataIn? then InContinue(c1, a, outNow)
    else c1
  }

  // ----- OUT data stage -----

  /** The part of a received packet that fits. */
  function Fitting(c: Ctrl, data: seq<Byte>): (r: seq<Byte>)
    requires c.cnt <= c.req.size
    ensures r <= data && c.cnt + |r| <= c.req.size
  {
    if c.req.size < c.cnt + |data| then data[..c.req.size - c.cnt] else data
  }

  /** The payload buffer once the packet has been copied into it. */
  function Copied(c: Ctrl, data: seq<Byte>): (r: Ctrl)
    requires c.Bounded()
    ensures r.Bounded()
  {
    var d := Fitting(c, data);
    c.(cnt := c.cnt + |d|, req := c.req.(payload := Splice(c.req.payload, c.cnt, d)),
       log := c.log.(got := c.log.got + d))
  }

  /** The last packet has been received: the callback may still refuse the data. */
  function EndReception(c: Ctrl, a: Answer): Ctrl {
    var c2 := c.(req := c.req.(size := c.cnt));
    if !c.req.overUnder then SendZlpIn(c2)
    else if a.Refuse? then StallData(c2)
    else SendZlpIn(Answered(c2, a))
  }

  /** The payload is full but the host has more to send. */
  function Overrun(c: Ctrl, a: Answer): Ctrl
    requires c.cnt <= |c.req.payload|
  {
    if !c.req.overUnder || a.Refuse? then StallData(c)
    else
      Answered(UsedUp(c), a).(prev := Wrap16(c.prev + c.cnt), cnt := 0, irq := c.irq.(nakIn := true))
  }

  /** `udd_ctrl_out_received` in the OUT data stage. */
  function OutData(c: Ctrl, data: seq<Byte>, a: Answer): Ctrl
    requires c.Bounded()
  {
    var c1 := Copied(c, data);
    if |Fitting(c, data)| != PACKET || c1.req.wLength <= c1.prev + c1.cnt then EndReception(c1, a)
    else if c1.req.size == c1.cnt then Overrun(c1, a)
    else c1.(irq := c1.irq.(nakIn := true))
  }

  /** `udd_ctrl_out_received`. */
  function OutReceived(c: Ctrl, data: seq<Byte>, a: Answer): Ctrl
    requires c.stage.DataOut? ==> c.Bounded()
  {
    match c.stage
    case DataOut => OutData(c, data, a)
    case DataIn => Init(EndOfRequest(c))
    case WaitOutZlp => Init(EndOfRequest(c))
    case _ => Init(Drop(StallData(c)))
  }

  // ----- SETUP and the other events -----

  /** The setup packet as the core sees it: direction bit and little-endian length. */
  function Decode(bytes: seq<Byte>): (bool, HalfWord)
    requires |bytes| == 8
  {
    var high: int := bytes[7];
    (bytes[0] >= 0x80, bytes[6] + 0x100 * high)
  }

  /** The request structure once the core has looked at the setup packet. */
  function Accept(c: Ctrl, isIn: bool, wLength: HalfWord, core: Core): Ctrl {
    var callback := if core.callback then Some(c.calls.registered) else None;
    var registered := c.calls.registered + if core.callback then 1 else 0;
    Install(c.(req := Request(isIn, wLength, [], 0, callback, core.overUnder),
               log := c.log.(packets := [], offered := []),
               calls := c.calls.(registered := registered)),
            core.payload, core.size)
  }

  /** A SETUP packet ends whatever request was going on. */
  function Reopened(c: Ctrl): Ctrl {
    if c.stage.Setup? then c else Init(EndOfRequest(c))
  }

  /** The first stage of a request the core has accepted. */
  function Begin(c: Ctrl, a: Answer, outNow: bool): Ctrl
    requires c.req.size <= |c.req.payload| && AnswerOk(a)
  {
    if c.req.isIn then InSent(c.(prev := 0, cnt := 0, stage := DataIn), a, outNow)
    else if c.req.wLength == 0 then SendZlpIn(c)
    else c.(prev := 0, cnt := 0, stage := DataOut, irq := c.irq.(nakIn := true))
  }

  /** `udd_ctrl_setup_received`. */
  function SetupReceived(c: Ctrl, bytes: seq<Byte>, core: Core, a: Answer, outNow: bool): Ctrl
    requires |bytes| == 8 ==> CoreOk(Decode(bytes).0, Decode(bytes).1, core)
    requires AnswerOk(a)
  {
    var c0 := Reopened(c);
    if |bytes| != 8 then StallData(c0)
    else
      var c1 := Accept(c0, Decode(bytes).0, Decode(bytes).1, core);
      if core.ok then Begin(c1, a, outNow) else StallData(c1)
  }

  function Underflow(c: Ctrl, outNow: bool): Ctrl {
    if outNow then c
    else match c.stage
      case DataOut => SendZlpIn(c)
      case WaitOutZlp => c.(irq := c.irq.(stall := true))
      case _ => c
  }

  function Overflow(c: Ctrl, inNow: bool): Ctrl {
    if !inNow && c.stage.WaitInZlp? then c.(irq := c.irq.(stall := true)) else c
  }

  /** The endpoint status read once at the head of the interrupt. */
  datatype Status = Status(setup: bool, inSent: bool, outReceived: bool, nakOut: bool, nakIn: bool)

  /**
   One event: an interrupt with the status, the bytes in the endpoint buffer, what the core
   would answer and the two status bits read again inside the handlers; or a bus reset.
   */
  datatype Event =
    | Interrupt(st: Status, fifo: seq<Byte>, core: Core, answer: Answer, outNow: bool, inNow: bool)
    | BusReset

  predicate EventOk(e: Event) {
    e.Interrupt? ==>
      && |e.fifo| <= PACKET
      && AnswerOk(e.answer)
      && (|e.fifo| == 8 ==> CoreOk(Decode(e.fifo).0, Decode(e.fifo).1, e.core))
  }

  /** Does the interrupt call `udd_ctrl_in_sent`? */
  predicate CallsInSent(c: Ctrl, e: Event) {
    e.Interrupt? && !e.st.setup && e.st.inSent && c.irq.tx
  }

  /** `udd_ctrl_interrupt` and the control part of a bus reset; the hardware drops its stall on SETUP. */
  function Step(c: Ctrl, e: Event): Ctrl
    requires c.InData() ==> c.Bounded()
    requires EventOk(e)
  {
    if e.BusReset? then Init(Drop(c))
    else
      var c1 := c.(irq := c.irq.(nakIn := false, nakOut := false));
      if e.st.setup then SetupReceived(c1.(irq := c1.irq.(stall := false)), e.fifo, e.core, e.answer, e.outNow)
      else if CallsInSent(c, e) then InSent(c1, e.answer, e.outNow)
      else if e.st.outReceived then OutReceived(c1, e.fifo, e.answer)
      else if e.st.nakOut then Overflow(c1, e.inNow)
      else if e.st.nakIn then Underflow(c1, e.outNow)
      else c1
  }

  // ----- runs -----

  predicate AllOk(es: seq<Event>) {
    forall i :: 0 <= i < |es| ==> EventOk(es[i])
  }

  /** The state after the events `es`; an event leaves a state without a usable payload alone. */
  function Run(c: Ctrl, es: seq<Event>): Ctrl
    requires AllOk(es)
  {
    if es == [] then c
    else
      var p := Run(c, es[..|es| - 1]);
      if p.InData() && !p.Bounded() then p else Step(p, es[|es| - 1])
  }

  // ----- invariants -----

  /** Stage, direction and interrupt enables agree (section 8.5.3 of the USB 2.0 specification). */
  predicate Stages(c: Ctrl) {
    && (c.stage.DataIn? || c.stage.WaitOutZlp? ==> c.req.isIn)
    && (c.stage.DataOut? || c.stage.WaitInZlp? ==> !c.req.isIn)
    && (c.irq.tx ==> c.stage.DataIn? || c.stage.WaitInZlp?)
    && (c.InData() ==> c.Bounded() && c.req.wLength > 0)
  }

  predicate Increasing(s: seq<nat>) {
    forall i :: 0 < i < |s| ==> s[i - 1] < s[i]
  }

  /** Each registered callback has been called once, was dropped, or is the pending one. */
  predicate Ledger(callback: Option<nat>, l: Calls) {
    var pending := if callback.Some? then 1 else 0;
    && Increasing(l.done)
    && (l.done != [] ==> l.done[|l.done| - 1] < l.registered - pending)
    && (callback.Some? ==> callback.value == l.registered - 1)
    && |l.done| + l.dropped + pending == l.registered
  }

  predicate Callbacks(c: Ctrl) {
    Ledger(c.req.callback, c.calls) && (c.stage.Setup? ==> c.req.callback.None?)
  }

  /** Only the bytes received for this buffer have been stored in it, at its front. */
  predicate Buffer(c: Ctrl) {
    && |c.log.got| <= |c.log.base| == |c.req.payload|
    && c.req.payload == c.log.got + c.log.base[|c.log.got|..]
    && (c.stage.DataOut? ==> c.cnt == |c.log.got|)
  }

  function Flat(ps: seq<seq<Byte>>): seq<Byte> {
    if ps == [] then [] else Flat(ps[..|ps| - 1]) + ps[|ps| - 1]
  }

  predicate FullButLast(ps: seq<seq<Byte>>) {
    forall i :: 0 <= i < |ps| - 1 ==> |ps[i]| == PACKET
  }

  /** The packets sent are the bytes offered, in order, and only the last one may be short. */
  predicate Packets(l: Log, req: Request, cnt: nat) {
    && cnt <= |req.payload|
    && Flat(l.packets) == l.offered + req.payload[..cnt]
    && FullButLast(l.packets)
  }

  /** The short-packet flag describes the last packet, and a short packet uses up the payload. */
  predicate ShortFlag(l: Log, req: Request, cnt: nat, short: bool) {
    var ps := l.packets;
    ps != [] ==> short == (|ps[|ps| - 1]| != PACKET) && (short ==> cnt == req.size)
  }

  predicate Sending(c: Ctrl) {
    && (c.stage.DataIn? || c.stage.WaitOutZlp? ==> Packets(c.log, c.req, c.cnt))
    && (c.stage.DataIn? ==> ShortFlag(c.log, c.req, c.cnt, c.short))
  }

  /** As long as only full packets have been sent, the bytes of the buffers used up are counted, in 16 bits. */
  predicate Counting(c: Ctrl) {
    c.log.packets == [] || !c.short ==> c.prev == Wrap16(|c.log.offered|)
  }

  predicate Summed(c: Ctrl) {
    && (c.stage.DataIn? ==> c.log.packets != [] && Counting(c))
    && (c.stage.DataOut? ==> c.prev == Wrap16(|c.log.offered|))
  }

  predicate Inv(c: Ctrl) {
    Stages(c) && Callbacks(c) && Buffer(c) && Sending(c) && Summed(c)
  }
}
