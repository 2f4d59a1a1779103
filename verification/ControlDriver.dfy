/**
 The control endpoint in the shape of `udphs_device.c`: module variables updated in place by the
 handlers, with their copy loops between the payload and the endpoint buffer. Each handler is
 proved to perform the corresponding function of `Control`, and the interrupt and the bus reset
 keep the invariants of all runs.
 */
module ControlDriver {
  import opened Machine
  import opened Control
  import opened ControlProofs
  import opened ControlEvents

  /**
   What `over_under_run` does to `udd_g_ctrlreq`: it refuses, leaves everything as it is, or installs a
   buffer, possibly the one installed already, with the contents it then has.
   */
  datatype Reply = No | Same | New(buf: array<Byte>, contents: seq<Byte>, size: HalfWord)
  {
    function View(): Answer {
      match this
      case No => Refuse
      case Same => Keep
      case New(buf, contents, size) => Supply(contents, size)
    }

    /** The contents fill the buffer, which is not the endpoint buffer. */
    predicate Fits(fifo: array<Byte>) {
      New? ==> buf != fifo && |contents| == buf.Length
    }

    function Buffers(): set<object> {
      if New? then {buf} else {}
    }
  }

  /** What `udc_process_setup` leaves in `udd_g_ctrlreq`. */
  datatype CoreReply = CoreReply(ok: bool, buf: array<Byte>, size: HalfWord, callback: bool, overUnder: bool)
  {
    ghost function View(): Core
      reads buf
    {
      Core(ok, buf[..], size, callback, overUnder)
    }
  }

  class Endpoint0 {
    var stage: Stage
    var isIn: bool
    var wLength: HalfWord
    var payload: array<Byte>
    var size: HalfWord
    var callback: Option<nat>
    var overUnder: bool
    var prev: HalfWord
    var cnt: HalfWord
    var short: bool
    var irq: Irq
    const fifo: array<Byte>
    var calls: Calls
    ghost var log: Log

    /** The endpoint buffer is no payload. */
    ghost predicate Shaped()
      reads this
    {
      fifo.Length == PACKET && payload != fifo
    }

    ghost function Req(): Request
      reads this, payload
    {
      Request(isIn, wLength, payload[..], size, callback, overUnder)
    }

    ghost function View(): Ctrl
      reads this, payload
    {
      Ctrl(stage, Req(), prev, cnt, short, irq, log, calls)
    }

    /** Shape and the invariants of every run of the control endpoint. */
    ghost predicate Valid()
      reads this, payload
    {
      Shaped() && Inv(View())
    }

    /** After a bus reset: no request, every interrupt but SETUP and OUT reception off. */
    constructor (buf: array<Byte>)
      ensures Valid() && fresh(fifo) && payload == buf
      ensures stage.Setup? && calls == Calls([], 0, 0)
    {
      stage, isIn, wLength, payload, size, callback, overUnder := Setup, false, 0, buf, 0, None, false;
      prev, cnt, short, irq := 0, 0, false, Irq(false, false, false, false);
      fifo := new Byte[PACKET](i => 0);
      log, calls := Log([], [], [], buf[..]), Calls([], 0, 0);
    }

    method EndOfRequest()
      modifies this`calls
      ensures View() == Control.EndOfRequest(old(View()))
    {
      if callback.Some? {
        calls := calls.(done := calls.done + [callback.value]);
      }
    }

    method CtrlInit()
      modifies this`irq, this`callback, this`overUnder, this`size, this`stage
      ensures View() == Init(old(View()))
    {
      irq := irq.(tx := false);
      callback := None;
      overUnder := false;
      size := 0;
      stage := Setup;
    }

    method StallData()
      modifies this`stage, this`irq
      ensures View() == Control.StallData(old(View()))
    {
      stage := StallReq;
      irq := irq.(stall := true);
    }

    method SendZlpIn()
      modifies this`stage, this`irq
      ensures View() == Control.SendZlpIn(old(View()))
    {
      stage := WaitInZlp;
      irq := irq.(tx := true, nakOut := true);
    }

    method SendZlpOut()
      modifies this`stage, this`irq
      ensures View() == Control.SendZlpOut(old(View()))
    {
      stage := WaitOutZlp;
      irq := irq.(nakIn := true);
    }

    /** The callback writes and installs its buffer, if it answers with one. */
    method TakeReply(a: Reply)
      requires Shaped() && a.Fits(fifo)
      modifies this`payload, this`size, this`log, a.Buffers()
      ensures Shaped() && View() == Answered(old(View()), a.View())
      ensures if a.New? then payload == a.buf && payload[..] == a.contents && size == a.size
              else payload == old(payload) && size == old(size)
    {
      if a.New? {
        forall i | 0 <= i < a.buf.Length {
          a.buf[i] := a.contents[i];
        }
        payload := a.buf;
        size := a.size;
        assert payload[..] == a.contents;
      }
      if !a.No? {
        log := log.(got := [], base := payload[..]);
      }
    }

    /** The copy loop from the payload to the endpoint buffer. */
    method FillFifo(n: nat)
      requires Shaped() && n <= PACKET && cnt + n <= payload.Length
      modifies fifo
      ensures fifo[..n] == payload[cnt..cnt + n]
    {
      var i := 0;
      while i < n
        invariant i <= n
        invariant fifo[..i] == payload[cnt..cnt + i]
      {
        fifo[i] := payload[cnt + i];
        i := i + 1;
      }
    }

    /** The tail of `udd_ctrl_in_sent`: size the packet, fill the endpoint buffer and send it. */
    method SendPacket(outNow: bool)
      requires Shaped() && View().Bounded()
      modifies this, fifo
      ensures Shaped() && payload == old(payload) && View() == Control.SendPacket(old(View()), outNow)
      ensures outNow ==> stage.WaitOutZlp? && cnt == old(cnt) && log == old(log) && irq == old(irq)
      ensures !outNow ==> stage == old(stage) && cnt == old(cnt) + Min(PACKET, size - old(cnt)) && irq.tx
    {
      var remain := size - cnt;
      if remain >= PACKET {
        remain := PACKET;
        short := false;
      } else {
        short := true;
      }
      if outNow {
        stage := WaitOutZlp;
        return;
      }
      FillFifo(remain);
      log := log.(packets := log.packets + [fifo[..remain]]);
      cnt := cnt + remain;
      irq := irq.(tx := true);
    }

    /** The copy loop from the endpoint buffer to the payload. */
    method DrainFifo(n: nat)
      requires Shaped() && n <= PACKET && cnt + n <= payload.Length
      modifies payload
      ensures payload[..] == Splice(old(payload[..]), cnt, fifo[..n])
    {
      var i := 0;
      while i < n
        invariant i <= n
        invariant forall k :: 0 <= k < payload.Length ==>
                    payload[k] == if cnt <= k < cnt + i then fifo[k - cnt] else old(payload[k])
      {
        payload[cnt + i] := fifo[i];
        i := i + 1;
      }
    }

    /** Ask the callback for another payload buffer. */
    method Refill(a: Reply)
      requires Shaped() && View().Bounded() && cnt == size && AnswerOk(a.View())
      requires a.Fits(fifo)
      modifies this`payload, this`size, this`log, this`cnt, a.Buffers()
      ensures Shaped() && View() == Refilled(old(View()), a.View())
    {
      if overUnder && !a.No? {
        log := log.(offered := log.offered + payload[..cnt]);
        TakeReply(a);
        cnt := 0;
      }
    }

    /** Another packet of the IN data stage, or its end. */
    method ContinueIn(a: Reply, outNow: bool)
      requires Shaped() && View().Bounded() && AnswerOk(a.View())
      requires a.Fits(fifo)
      modifies this, fifo, a.Buffers()
      ensures Shaped() && View() == InContinue(old(View()), a.View(), outNow)
    {
      if size != cnt {
        SendPacket(outNow);
        return;
      }
      prev := Wrap16(prev + cnt);
      if wLength == prev || short {
        SendZlpOut();
        return;
      }
      Refill(a);
      SendPacket(outNow);
    }

    /** `udd_ctrl_in_sent`. */
    method InSent(a: Reply, outNow: bool)
      requires Shaped() && (stage.WaitInZlp? || (stage.DataIn? && View().Bounded())) && AnswerOk(a.View())
      requires a.Fits(fifo)
      modifies this, fifo, a.Buffers()
      ensures Shaped() && View() == Control.InSent(old(View()), a.View(), outNow)
      ensures old(stage.WaitInZlp?) ==> stage.Setup? && !irq.tx && callback.None?
    {
      irq := irq.(tx := false);
      if stage.WaitInZlp? {
        EndOfRequest();
        CtrlInit();
        return;
      }
      assert stage.DataIn?;
      ContinueIn(a, outNow);
    }

    /** The callback of a request given up for a protocol error is never called. */
    method Forget()
      modifies this`calls
      ensures View() == Drop(old(View()))
    {
      if callback.Some? {
        calls := calls.(dropped := calls.dropped + 1);
      }
    }

    /** The received bytes that fit go to the payload. */
    method StorePacket(n: nat) returns (stored: nat)
      requires Shaped() && n <= PACKET && View().Bounded()
      modifies this`cnt, this`log, payload
      ensures View() == Copied(old(View()), fifo[..n]) && stored == |Fitting(old(View()), fifo[..n])|
    {
      stored := n;
      if size < cnt + n {
        stored := size - cnt;
      }
      assert fifo[..stored] == Fitting(View(), fifo[..n]);
      DrainFifo(stored);
      log := log.(got := log.got + fifo[..stored]);
      cnt := cnt + stored;
    }

    /** Before the status packet, the callback may still turn the data into a stall. */
    method FinishReception(a: Reply)
      requires Shaped() && a.Fits(fifo)
      modifies this, a.Buffers()
      ensures Shaped() && View() == EndReception(old(View()), a.View())
      ensures if old(overUnder) && a.No? then stage.StallReq? && irq.stall else stage.WaitInZlp? && irq.tx && irq.nakOut
    {
      size := cnt;
      if overUnder {
        if a.No? {
          StallData();
          return;
        }
        TakeReply(a);
      }
      SendZlpIn();
    }

    /** The payload is full: go on with another buffer or stall. */
    method NextBuffer(a: Reply)
      requires Shaped() && a.Fits(fifo) && cnt <= payload.Length
      modifies this, a.Buffers()
      ensures Shaped() && View() == Overrun(old(View()), a.View())
      ensures if !old(overUnder) || a.No? then stage.StallReq? && irq.stall
              else stage == old(stage) && cnt == 0 && prev == Wrap16(old(prev + cnt)) && irq.nakIn
    {
      if !overUnder || a.No? {
        StallData();
        return;
      }
      log := log.(offered := log.offered + payload[..cnt]);
      TakeReply(a);
      prev := Wrap16(prev + cnt);
      cnt := 0;
      irq := irq.(nakIn := true);
    }

    /** `udd_ctrl_out_received` in the OUT data stage. */
    method OutData(n: nat, a: Reply)
      requires Shaped() && n <= PACKET && View().Bounded()
      requires a.Fits(fifo)
      modifies this, payload, a.Buffers()
      ensures Shaped() && View() == Control.OutData(old(View()), fifo[..n], a.View())
    {
      var stored := StorePacket(n);
      if stored != PACKET || wLength <= prev + cnt {
        FinishReception(a);
      } else if size == cnt {
        NextBuffer(a);
      } else {
        irq := irq.(nakIn := true);
      }
    }

    /** `udd_ctrl_out_received`; `n` is the byte count of the endpoint. */
    method OutReceived(n: nat, a: Reply)
      requires Shaped() && n <= PACKET && (stage.DataOut? ==> View().Bounded())
      requires a.Fits(fifo)
      modifies this, payload, a.Buffers()
      ensures Shaped() && View() == Control.OutReceived(old(View()), fifo[..n], a.View())
    {
      if stage.DataOut? {
        OutData(n, a);
        return;
      }
      if stage.DataIn? || stage.WaitOutZlp? {
        EndOfRequest();
      } else {
        StallData();
        Forget();
      }
      CtrlInit();
    }

    /** The completion callback the core asks for, if any, gets the next number. */
    method Register(wanted: bool)
      modifies this`callback, this`calls
      ensures callback == if wanted then Some(old(calls.registered)) else None
      ensures calls == old(calls).(registered := old(calls.registered) + if wanted then 1 else 0)
    {
      if wanted {
        callback := Some(calls.registered);
        calls := calls.(registered := calls.registered + 1);
      } else {
        callback := None;
      }
    }

    /** The request fields of the setup packet, and a log of nothing sent yet. */
    method DecodeSetup(dirIn: bool, length: HalfWord)
      modifies this`isIn, this`wLength, this`log
      ensures isIn == dirIn && wLength == length && log.packets == [] && log.offered == []
    {
      isIn, wLength := dirIn, length;
      log := log.(packets := [], offered := []);
    }

    /** The payload buffer of the core. */
    method InstallBuffer(buf: array<Byte>, length: HalfWord)
      modifies this`payload, this`size, this`log
      ensures payload == buf && size == length
      ensures log == old(log).(got := [], base := buf[..])
    {
      payload, size := buf, length;
      log := log.(got := [], base := buf[..]);
    }

    /** The request structure once the core has decoded the setup packet. */
    method AcceptSetup(dirIn: bool, length: HalfWord, core: CoreReply)
      requires Shaped() && core.buf != fifo
      modifies this
      ensures Shaped() && payload == core.buf && View() == Accept(old(View()), dirIn, length, old(core.View()))
    {
      DecodeSetup(dirIn, length);
      Register(core.callback);
      overUnder := core.overUnder;
      InstallBuffer(core.buf, core.size);
    }

    /** The first stage of an accepted request. */
    method BeginRequest(a: Reply, outNow: bool)
      requires Shaped() && size <= payload.Length && AnswerOk(a.View())
      requires a.Fits(fifo)
      modifies this, fifo, a.Buffers()
      ensures Shaped() && View() == Begin(old(View()), a.View(), outNow) && (!isIn ==> payload == old(payload))
    {
      if isIn {
        prev := 0;
        cnt := 0;
        stage := DataIn;
        InSent(a, outNow);
      } else if wLength == 0 {
        SendZlpIn();
      } else {
        prev := 0;
        cnt := 0;
        stage := DataOut;
        irq := irq.(nakIn := true);
      }
    }

    /** A request still open is over: its callback runs. */
    method Reopen()
      modifies this`calls, this`irq, this`callback, this`overUnder, this`size, this`stage
      ensures View() == Reopened(old(View()))
    {
      if !stage.Setup? {
        EndOfRequest();
        CtrlInit();
      }
    }

    /** The steps of `udd_ctrl_setup_received`; `n` is the byte count of the endpoint. */
    method TakeSetup(n: nat, core: CoreReply, a: Reply, outNow: bool)
      requires Shaped() && n <= PACKET && AnswerOk(a.View()) && core.buf != fifo
      requires n == 8 ==> CoreOk(Decode(fifo[..8]).0, Decode(fifo[..8]).1, core.View())
      requires a.Fits(fifo)
      modifies this, fifo, a.Buffers()
      ensures Shaped() && (n == 8 && !isIn ==> payload == core.buf)
      ensures View() == Control.SetupReceived(old(View()), old(fifo[..n]), old(core.View()), a.View(), outNow)
    {
      Reopen();
      if n != 8 {
        StallData();
        return;
      }
      var high: int := fifo[7];
      AcceptSetup(fifo[0] >= 0x80, fifo[6] + 0x100 * high, core);
      if !core.ok {
        StallData();
        return;
      }
      BeginRequest(a, outNow);
    }

    /**
     `udd_ctrl_setup_received`. The request is read from the eight bytes, the length little-endian from
     the last two and the direction from the top bit of the first; a packet of another size and a
     request the core rejects are stalled.
     */
    method SetupReceived(n: nat, core: CoreReply, a: Reply, outNow: bool)
      requires Shaped() && n <= PACKET && AnswerOk(a.View()) && core.buf != fifo
      requires n == 8 ==> CoreOk(Decode(fifo[..8]).0, Decode(fifo[..8]).1, core.View())
      requires a.Fits(fifo)
      modifies this, fifo, a.Buffers()
      ensures Shaped()
      ensures View() == Control.SetupReceived(old(View()), old(fifo[..n]), old(core.View()), a.View(), outNow)
      ensures n == 8 ==>
                && wLength % 0x100 == old(fifo[6]) && wLength / 0x100 == old(fifo[7])
                && (isIn <==> old(fifo[0]) / 0x80 == 1) && overUnder == core.overUnder
                && (core.ok && !isIn && wLength > 0 ==> stage.DataOut? && cnt == prev == 0 && payload == core.buf && size == core.size)
                && (core.ok && !isIn && wLength == 0 ==> stage.WaitInZlp? && irq.tx)
                && (core.ok && isIn ==> stage.DataIn? || stage.WaitOutZlp?)
      ensures n != 8 || !core.ok <==> stage.StallReq?
      ensures n != 8 || !core.ok ==> irq.stall
    {
      ghost var c, bytes, made, answer := View(), fifo[..n], core.View(), a.View();
      TakeSetup(n, core, a, outNow);
      if n == 8 {
        SetupReads(c, bytes, made, answer, outNow);
      }
      SetupStalls(c, bytes, made, answer, outNow);
    }

    method Underflow(outNow: bool)
      modifies this`stage, this`irq
      ensures View() == Control.Underflow(old(View()), outNow)
      ensures outNow ==> stage == old(stage) && irq == old(irq)
      ensures !outNow && old(stage.DataOut?) ==> stage.WaitInZlp? && irq.tx
      ensures !outNow && old(stage.WaitOutZlp?) ==> stage.WaitOutZlp? && irq.stall
    {
      if outNow {
        return;
      }
      if stage.DataOut? {
        SendZlpIn();
      } else if stage.WaitOutZlp? {
        irq := irq.(stall := true);
      }
    }

    method Overflow(inNow: bool)
      modifies this`irq
      ensures View() == Control.Overflow(old(View()), inNow)
      ensures irq.stall <==> old(irq.stall) || (old(stage.WaitInZlp?) && !inNow)
    {
      if inNow {
        return;
      }
      if stage.WaitInZlp? {
        irq := irq.(stall := true);
      }
    }

    /** The event the endpoint hardware, the core and its callbacks present to one interrupt. */
    ghost function EventView(st: Status, n: nat, core: CoreReply, a: Reply, outNow: bool, inNow: bool): Event
      requires fifo.Length == PACKET && n <= PACKET
      reads fifo, core.buf
    {
      Interrupt(st, fifo[..n], core.View(), a.View(), outNow, inNow)
    }

    /** The hardware drops its stall on SETUP. */
    method ServeSetup(n: nat, core: CoreReply, a: Reply, outNow: bool)
      requires Shaped() && n <= PACKET && AnswerOk(a.View()) && core.buf != fifo
      requires n == 8 ==> CoreOk(Decode(fifo[..8]).0, Decode(fifo[..8]).1, core.View())
      requires a.Fits(fifo)
      modifies this, fifo, a.Buffers()
      ensures Shaped()
      ensures View() == Control.SetupReceived(old(View()).(irq := old(irq).(stall := false)), old(fifo[..n]),
                                              old(core.View()), a.View(), outNow)
    {
      irq := irq.(stall := false);
      SetupReceived(n, core, a, outNow);
    }

    /** The NAK handlers. */
    method ServeNak(st: Status, outNow: bool, inNow: bool)
      modifies this`stage, this`irq
      ensures View() ==
              if st.nakOut then Control.Overflow(old(View()), inNow)
              else if st.nakIn then Control.Underflow(old(View()), outNow)
              else old(View())
    {
      if st.nakOut {
        Overflow(inNow);
      } else if st.nakIn {
        Underflow(outNow);
      }
    }

    /** The handlers by priority. */
    method Dispatch(st: Status, n: nat, core: CoreReply, a: Reply, outNow: bool, inNow: bool)
      requires Shaped() && (View().InData() ==> View().Bounded()) && (irq.tx ==> stage.DataIn? || stage.WaitInZlp?)
      requires n <= PACKET && EventOk(EventView(st, n, core, a, outNow, inNow))
      requires core.buf != fifo && a.Fits(fifo)
      modifies this, fifo, payload, a.Buffers()
      ensures Shaped() && View() == Step(old(View()), old(EventView(st, n, core, a, outNow, inNow)))
    {
      ghost var e := EventView(st, n, core, a, outNow, inNow);
      ghost var c1 := View().(irq := irq.(nakIn := false, nakOut := false));
      ghost var next := Step(View(), e);
      irq := irq.(nakIn := false, nakOut := false);
      assert View() == c1;
      if st.setup {
        assert next == Control.SetupReceived(c1.(irq := c1.irq.(stall := false)), e.fifo, e.core, e.answer, outNow);
        ServeSetup(n, core, a, outNow);
      } else if st.inSent && irq.tx {
        assert next == Control.InSent(c1, e.answer, outNow);
        InSent(a, outNow);
      } else if st.outReceived {
        assert next == Control.OutReceived(c1, e.fifo, e.answer);
        OutReceived(n, a);
      } else {
        ServeNak(st, outNow, inNow);
      }
    }

    /**
     `udd_ctrl_interrupt`: one step of the state machine, which keeps the invariants of all runs; in
     particular the assertion of `udd_ctrl_in_sent` holds.
     */
    method HandleInterrupt(st: Status, n: nat, core: CoreReply, a: Reply, outNow: bool, inNow: bool)
      requires Valid() && n <= PACKET && EventOk(EventView(st, n, core, a, outNow, inNow))
      requires core.buf != fifo && a.Fits(fifo)
      modifies this, fifo, payload, a.Buffers()
      ensures Valid() && View() == Step(old(View()), old(EventView(st, n, core, a, outNow, inNow)))
    {
      StepInv(View(), EventView(st, n, core, a, outNow, inNow));
      Dispatch(st, n, core, a, outNow, inNow);
    }

    /** The control part of a bus reset: the callback of the request under way is forgotten. */
    method BusReset()
      requires Valid()
      modifies this
      ensures Valid() && stage.Setup? && !irq.tx && View() == Step(old(View()), Control.BusReset)
      ensures callback.None? && calls.done == old(calls.done)
      ensures calls.dropped == old(calls.dropped) + if old(callback.Some?) then 1 else 0
    {
      StepInv(View(), Control.BusReset);
      Forget();
      CtrlInit();
    }
  }
}
