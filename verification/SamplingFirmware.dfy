/**
 The sampling engine in the shape of `src/main.c`: global variables updated in place by the
 timer interrupt, the main loop, the callbacks and the start request (`Engine`), and the same on a
 board (`Device`), where each method keeps what the input buffer holds in every run and hands the
 invariants of the two streams on.
 */
module SamplingFirmware {
  import opened Machine
  import opened Sampling
  import opened SamplingProofs

  /** The buffer `a` holds the rows `rows`. */
  ghost predicate Holds(a: array2<HalfWord>, rows: seq<seq<HalfWord>>)
    reads a
  {
    && |rows| == a.Length0 == 2 && |rows[0]| == |rows[1]| == a.Length1
    && forall i, j :: 0 <= i < 2 && 0 <= j < a.Length1 ==> a[i, j] == rows[i][j]
  }

  lemma CellsStep(b: Board, e: Event)
    requires b.fw.Shaped() && Enabled(b, e)
    ensures InCells(b) ==> InCells(Next(b, e))
  {
    if InCells(b) {
      InCellsStep(b, e);
    }
  }

  lemma OutStep(b: Board, e: Event)
    requires b.fw.Shaped() && Enabled(b, e)
    ensures OutInv(b) && OutTimely(b, e) ==> OutInv(Next(b, e))
  {
    if OutInv(b) && OutTimely(b, e) {
      OutInvStep(b, e);
    }
  }

  lemma InStep(b: Board, e: Event)
    requires b.fw.Shaped() && Enabled(b, e)
    ensures InInv(b) && InTimely(b, e) ==> InInv(Next(b, e))
  {
    if InInv(b) && InTimely(b, e) {
      InInvStep(b, e);
    }
  }

  /** What one event does to the invariants. */
  lemma BoardStep(b: Board, e: Event)
    requires b.fw.Shaped() && Enabled(b, e)
    ensures InCells(b) ==> InCells(Next(b, e))
    ensures OutInv(b) && OutTimely(b, e) ==> OutInv(Next(b, e))
    ensures InInv(b) && InTimely(b, e) ==> InInv(Next(b, e))
  {
    CellsStep(b, e);
    OutStep(b, e);
    InStep(b, e);
  }

  lemma DacWordRight(b: Board)
    requires b.fw.Shaped() && b.timerOn
    ensures OutInv(b) ==> var x := StreamIndex(|b.played|); x < |b.arrived| && DacWord(b.fw) == b.arrived[x]
  {
    if OutInv(b) {
      DacReads(b);
    }
  }

  lemma FetchRight(b: Board)
    requires b.fw.Shaped() && Enabled(b, UsbInWord)
    ensures InInv(b) && InTimely(b, UsbInWord) ==>
              b.fw.packetsIn[b.inJob.target][b.inJob.count] == b.captured[24 + |b.delivered|]
  {
    if InInv(b) && InTimely(b, UsbInWord) {
      UsbFetches(b);
    }
  }

  /** The first completion since a start. */
  lemma FirstDone(b: Board)
    requires b.fw.Shaped() && Enabled(b, UsbOutDone)
    ensures OutInv(b) && b.outDone == 0 ==> Next(b, UsbOutDone).fw.startTimer && |b.arrived| == OUT_WORDS
  {
  }

  /** The row the main loop hands to the OUT endpoint is not the one being played. */
  lemma HandedRow(b: Board)
    requires OutInv(b) && OutReady(b.fw.hand) && b.timerOn
    ensures b.fw.hand.sendIdxOut != b.fw.pos.packetOut
  {
    assert |b.captured| / 4 >= 4;
  }

  /** One pass of the main loop on the board. */
  lemma LoopRight(b: Board)
    requires b.fw.Shaped()
    ensures var c := Next(Next(b, LoopIn), LoopOut);
            && (InCells(b) ==> InCells(c))
            && (InInv(b) ==> InInv(c) && (InReady(b.fw.hand) ==> c.inJob == InBusy(b.fw.hand.sendIdxIn, 0)))
            && (OutInv(b) ==>
                  && OutInv(c)
                  && (OutReady(b.fw.hand) ==>
                        && c.outJob == OutBusy(b.fw.hand.sendIdxOut, 0, false)
                        && (c.timerOn ==> b.fw.hand.sendIdxOut != c.fw.pos.packetOut)))
  {
    BoardStep(b, LoopIn);
    BoardStep(Next(b, LoopIn), LoopOut);
    if OutInv(b) && OutReady(b.fw.hand) && b.timerOn {
      HandedRow(b);
    }
  }

  lemma LaunchRight(b: Board, frame: nat)
    requires b.fw.Shaped()
    ensures InCells(Launch(b, frame))
    ensures Enabled(b, Start(frame)) ==> OutInv(Launch(b, frame)) && InInv(Launch(b, frame))
  {
    if Enabled(b, Start(frame)) {
      LaunchInit(b, frame);
    }
  }

  class Engine {
    var chan: Channel
    var slotIn: Byte
    var slotOut: Byte
    var packetIn: Bit
    var packetOut: Bit
    var sendIdxIn: Bit
    var sendIdxOut: Bit
    var sendIn: bool
    var sendOut: bool
    var sendingIn: bool
    var sendingOut: bool
    var sentOut: bool
    var startTimer: bool
    var startFrame: nat
    var preroll: Byte
    const packetsIn: array2<HalfWord>
    const packetsOut: array2<HalfWord>

    ghost var rowsIn: seq<seq<HalfWord>>
    ghost var rowsOut: seq<seq<HalfWord>>

    /** The buffers hold the rows the model speaks of. */
    ghost predicate Valid()
      reads this`rowsIn, this`rowsOut, packetsIn, packetsOut
    {
      && packetsIn.Length1 == IN_ROW && Holds(packetsIn, rowsIn)
      && packetsOut.Length1 == OUT_WORDS && Holds(packetsOut, rowsOut)
      && packetsIn != packetsOut
    }

    ghost function Pos(): Position
      reads this
    {
      Position(slotIn, slotOut, packetIn, packetOut, preroll)
    }

    ghost function Hand(): Handoff
      reads this
    {
      Handoff(sendIdxIn, sendIdxOut, sendIn, sendOut, sendingIn, sendingOut)
    }

    ghost function View(): (f: Firmware)
      reads this
    {
      Firmware(chan, Pos(), Hand(), sentOut, startTimer, startFrame, rowsIn, rowsOut)
    }

    /** Power-on: every global is zero and no transfer is pending. */
    constructor ()
      ensures Valid() && fresh(packetsIn) && fresh(packetsOut)
      ensures !startTimer && !sendingIn && !sendingOut && !sendIn && !sendOut
    {
      chan, slotIn, slotOut, packetIn, packetOut, preroll := ChanA, 0, 0, 0, 0, 0;
      sendIdxIn, sendIdxOut, sendIn, sendOut, sendingIn, sendingOut := 0, 0, false, false, false, false;
      sentOut, startTimer, startFrame := false, false, 0;
      packetsIn := new HalfWord[2, IN_ROW]((i, j) => 0);
      packetsOut := new HalfWord[2, OUT_WORDS]((i, j) => 0);
      rowsIn := seq(2, i => seq(IN_ROW, j => 0));
      rowsOut := seq(2, i => seq(OUT_WORDS, j => 0));
    }

    /** One ADC word arrives through the PDC. */
    method Receive(row: Bit, col: nat, w: HalfWord)
      requires Valid() && col < IN_ROW
      modifies packetsIn, this`rowsIn
      ensures Valid() && rowsIn == Store(old(rowsIn), row, col, w)
    {
      packetsIn[row, col] := w;
      rowsIn := Store(rowsIn, row, col, w);
    }

    /** The two ADC words of this interrupt. */
    method ReceiveSamples(u1: HalfWord, u2: HalfWord)
      requires Valid()
      modifies packetsIn, this`rowsIn
      ensures Valid() && rowsIn == Capture(old(View()), u1, u2)
    {
      match chan {
        case ChanA =>
          Receive(packetIn, slotIn * 4, u1);
          Receive(packetIn, slotIn * 4 + 1, u2);
        case ChanB =>
          Receive(packetIn, slotIn * 4 + 3, u1);
          Receive(packetIn, slotIn * 4 + 2, u2);
      }
    }

    /** The end of case B: the counters move and buffers change hands. */
    method AdvanceSlots()
      modifies this`slotIn, this`slotOut, this`packetIn, this`packetOut, this`preroll,
               this`sendIdxIn, this`sendIdxOut, this`sendIn, this`sendOut
      ensures Pos() == Advance(old(Pos())) && Hand() == Request(old(Hand()), old(Pos()))
    {
      slotIn := Wrap8(slotIn + 1);
      slotOut := Wrap8(slotOut + 1);
      match slotOut {
        case 0 =>
          sendIdxIn := packetIn;
          packetOut := Flip(packetOut);
          sendIn := true;
        case 2 =>
          packetIn := Flip(packetIn);
        case 4 =>
          slotOut := Wrap8(slotOut - preroll);
          slotIn := Wrap8(slotIn - preroll);
          preroll := 0;
        case 127 =>
          sendIdxOut := Flip(packetOut);
          sendOut := true;
        case _ =>
      }
    }

    /** `TC2_Handler`: returns the half-word the DAC is given. */
    method TimerInterrupt(u1: HalfWord, u2: HalfWord) returns (dac: HalfWord)
      requires Valid()
      modifies this, packetsIn
      ensures Valid() && View() == TimerTick(old(View()), u1, u2) && dac == DacWord(old(View()))
    {
      ReceiveSamples(u1, u2);
      match chan {
        case ChanA =>
          dac := packetsOut[packetOut, slotOut * 2];
          chan := ChanB;
        case ChanB =>
          dac := packetsOut[packetOut, slotOut * 2 + 1];
          chan := ChanA;
          AdvanceSlots();
      }
    }

    /** One pass of the main loop: the rows handed to the IN and OUT endpoints, if any. */
    method MainLoopPass() returns (toIn: Option<Bit>, toOut: Option<Bit>)
      requires Valid()
      modifies this`sendIn, this`sendOut, this`sendingIn, this`sendingOut
      ensures Valid() && View() == old(View()).(hand := MainOut(MainIn(old(View().hand))))
      ensures toIn == if InReady(old(View()).hand) then Some(old(View()).hand.sendIdxIn) else None
      ensures toOut == if OutReady(old(View()).hand) then Some(old(View()).hand.sendIdxOut) else None
    {
      toIn, toOut := None, None;
      if !sendingIn && sendIn {
        sendIn := false;
        sendingIn := true;
        toIn := Some(sendIdxIn);
      }
      if !sendingOut && sendOut {
        sendOut := false;
        sendingOut := true;
        toOut := Some(sendIdxOut);
      }
    }

    /** USB stores a half-word of the host. */
    method StoreWord(row: Bit, col: nat, w: HalfWord)
      requires Valid() && col < OUT_WORDS
      modifies packetsOut, this`rowsOut
      ensures Valid() && View() == old(View()).(packetsOut := Store(old(View()).packetsOut, row, col, w))
    {
      packetsOut[row, col] := w;
      rowsOut := Store(rowsOut, row, col, w);
    }

    method BulkInReceived(ok: bool)
      requires Valid()
      modifies this`sendingIn
      ensures Valid() && View() == InReceived(old(View()), ok)
    {
      if ok {
        sendingIn := false;
      }
    }

    method BulkOutReceived(ok: bool)
      requires Valid()
      modifies this`sendingOut
      ensures Valid() && View() == OutReceived(old(View()), ok)
    {
      if ok {
        sendingOut := false;
      }
    }

    method BulkOutReceivedFirst(ok: bool)
      requires Valid()
      modifies this`sendingOut, this`sentOut, this`startTimer
      ensures Valid() && View() == OutReceivedFirst(old(View()), ok)
    {
      if ok {
        if !sentOut {
          startTimer := true;
        }
        sentOut := true;
        sendingOut := false;
      }
    }

    /** The start-of-frame action: `go` tells whether it starts the timer. */
    method StartOfFrame(frame: nat) returns (go: bool)
      requires Valid()
      modifies this`startTimer
      ensures Valid() && View() == SofAction(old(View()), frame) && go == SofStarts(old(View()), frame)
    {
      go := startTimer && (frame == startFrame || startFrame == 0);
      if go {
        startTimer := false;
      }
    }

    /** The IN hand-over flags as request 0xC5 leaves them. */
    method ResetIn()
      modifies this`sendIdxIn, this`sendIn, this`sendingIn
      ensures View() == old(View()).(hand := old(View()).hand.(sendIdxIn := 0, sendIn := false, sendingIn := false))
    {
      sendingIn := false;
      sendIn := false;
      sendIdxIn := 0;
    }

    /** The OUT hand-over flags: the transfer of packet 0 is under way. */
    method ResetOut()
      modifies this`sendIdxOut, this`sendOut, this`sendingOut
      ensures View() == old(View()).(hand := old(View()).hand.(sendIdxOut := 0, sendOut := false, sendingOut := true))
    {
      sendIdxOut := 0;
      sendingOut := true;
      sendOut := false;
    }

    /** The counters as request 0xC5 leaves them. */
    method ResetCounters()
      modifies this`slotIn, this`slotOut, this`packetIn, this`packetOut, this`preroll
      ensures View() == old(View()).(pos := Position(254, 0, 0, 0, 4))
    {
      preroll := 4;
      slotIn := 254;
      slotOut := 0;
      packetIn := 0;
      packetOut := 0;
    }

    /** The callbacks of the two aborted transfers change nothing. */
    method AbortTransfers()
      requires Valid()
      modifies this`sendingIn, this`sendingOut
      ensures Valid() && View() == old(View())
    {
      BulkInReceived(false);
      BulkOutReceived(false);
    }

    /** Request 0xC5 with a sampling period; returns the row of the first OUT transfer. */
    method StartSampling(frame: nat) returns (row: Bit)
      requires Valid()
      modifies this
      ensures Valid() && View() == StartRequest(old(View()), frame) && row == 0
    {
      AbortTransfers();
      chan := ChanA;
      ResetCounters();
      startFrame := frame;
      sentOut := false;
      ResetIn();
      ResetOut();
      row := sendIdxOut;
    }
  }

  /** The firmware on its board. */
  class Device {
    const engine: Engine
    ghost var board: Board
    ghost var started: bool

    /** The firmware is the one on the board, and since the start the input buffer holds the captured words. */
    ghost predicate Valid()
      reads this, engine, engine.packetsIn, engine.packetsOut
    {
      && engine.Valid() && board.fw == engine.View()
      && (if started then InCells(board) else !board.timerOn)
    }

    /** The board took event `e`: the streams go on if their deadline was kept. */
    twostate predicate Steps(e: Event)
      requires old(board).fw.Shaped() && Enabled(old(board), e)
      reads this
    {
      && board == Next(old(board), e) && started == old(started)
      && (OutInv(old(board)) && OutTimely(old(board), e) ==> OutInv(board))
      && (InInv(old(board)) && InTimely(old(board), e) ==> InInv(board))
    }

    constructor ()
      ensures Valid() && !started && fresh(engine) && fresh(engine.packetsIn) && fresh(engine.packetsOut)
      ensures Enabled(board, Start(0))
    {
      engine := new Engine();
      started := false;
      new;
      board := Board(engine.View(), false, OutIdle, InIdle, [], [], [], [], 0, 0);
    }

    /** The timer interrupt: in a timely run the half-word given to the DAC is the next one of the host stream. */
    method TimerInterrupt(u1: HalfWord, u2: HalfWord) returns (dac: HalfWord)
      requires Valid() && board.timerOn
      modifies this, engine, engine.packetsIn
      ensures Valid() && Steps(Timer(u1, u2))
      ensures OutInv(old(board)) ==>
                var x := StreamIndex(|old(board).played|); x < |board.arrived| && dac == board.arrived[x]
    {
      BoardStep(board, Timer(u1, u2));
      DacWordRight(board);
      dac := engine.TimerInterrupt(u1, u2);
      board := Next(board, Timer(u1, u2));
    }

    /**
     One pass of the main loop. In a timely run the row handed to the OUT endpoint is not the one
     being played, and nothing is handed over that was not requested.
     */
    method MainLoopPass() returns (toIn: Option<Bit>, toOut: Option<Bit>)
      requires Valid()
      modifies this, engine
      ensures Valid() && board == Next(Next(old(board), LoopIn), LoopOut)
      ensures OutInv(old(board)) ==>
                && OutInv(board)
                && (toOut.Some? ==> board.outJob == OutBusy(toOut.value, 0, false))
                && (toOut.Some? && board.timerOn ==> toOut.value != board.fw.pos.packetOut)
      ensures InInv(old(board)) ==> InInv(board) && (toIn.Some? ==> board.inJob == InBusy(toIn.value, 0))
    {
      LoopRight(board);
      toIn, toOut := engine.MainLoopPass();
      board := Next(Next(board, LoopIn), LoopOut);
    }

    /** The host's next half-word reaches the row under transfer. */
    method HostStores(row: Bit, col: nat, w: HalfWord)
      requires Valid() && Enabled(board, UsbOutWord(w)) && board.outJob.target == row && board.outJob.count == col
      modifies this, engine, engine.packetsOut
      ensures Valid() && Steps(UsbOutWord(w))
    {
      BoardStep(board, UsbOutWord(w));
      engine.StoreWord(row, col, w);
      board := Next(board, UsbOutWord(w));
    }

    /** The half-word an IN transfer fetches: in a timely run the next one of the capture stream. */
    method HostFetches(row: Bit, col: nat) returns (w: HalfWord)
      requires Valid() && Enabled(board, UsbInWord) && board.inJob == InBusy(row, col)
      modifies this
      ensures Valid() && Steps(UsbInWord)
      ensures InInv(old(board)) && InTimely(old(board), UsbInWord) ==>
                w == board.captured[24 + |old(board).delivered|]
    {
      BoardStep(board, UsbInWord);
      FetchRight(board);
      w := engine.packetsIn[row, col];
      board := Next(board, UsbInWord);
    }

    /** Only a completion with status OK completes the transfer on the board. */
    method BulkInReceived(ok: bool)
      requires Valid() && (ok ==> Enabled(board, UsbInDone))
      modifies this, engine
      ensures Valid() && if ok then Steps(UsbInDone) else board == old(board)
    {
      engine.BulkInReceived(ok);
      if ok {
        BoardStep(board, UsbInDone);
        board := Next(board, UsbInDone);
      }
    }

    /** An OUT transfer ends; the first one of a start requests the timer, and in a timely run packet 0 is complete then. */
    method BulkOutReceived(ok: bool, first: bool)
      requires Valid() && (ok ==> Enabled(board, UsbOutDone) && board.outJob.first == first)
      modifies this, engine
      ensures Valid() && if ok then Steps(UsbOutDone) else board == old(board)
      ensures OutInv(old(board)) && ok ==> (old(board).outDone == 0 ==> board.fw.startTimer && |board.arrived| == OUT_WORDS)
    {
      if first {
        engine.BulkOutReceivedFirst(ok);
      } else {
        engine.BulkOutReceived(ok);
      }
      if ok {
        BoardStep(board, UsbOutDone);
        FirstDone(board);
        board := Next(board, UsbOutDone);
      }
    }

    /** The start-of-frame action: `go` tells whether it starts the timer; in a timely run packet 0 is there by then. */
    method StartOfFrame(frame: nat) returns (go: bool)
      requires Valid() && started
      modifies this, engine
      ensures Valid() && Steps(Sof(frame)) && board.timerOn == (old(board).timerOn || go)
      ensures go <==> old(board).fw.startTimer && (old(board).fw.startFrame == 0 || frame == old(board).fw.startFrame)
      ensures go ==> !board.fw.startTimer
      ensures OutInv(old(board)) && go ==> |board.arrived| >= OUT_WORDS
    {
      BoardStep(board, Sof(frame));
      go := engine.StartOfFrame(frame);
      board := Next(board, Sof(frame));
    }

    /**
     Request 0xC5: without a sampling period the timer stops; with one both transfers are aborted,
     packet 0 is requested, and if the timer is off and no start is pending both streams begin.
     */
    method ConfigureSampling(period: nat, frame: nat)
      requires Valid()
      modifies this, engine
      ensures Valid() && board == if period < 1 then Next(old(board), Stop) else Launch(old(board), frame)
      ensures period < 1 ==> !board.timerOn && board.fw == old(board).fw
      ensures period >= 1 ==>
                && board.fw.startFrame == frame && board.fw.startTimer == old(board).fw.startTimer
                && board.outJob == OutBusy(0, 0, true) && board.inJob == InIdle && board.timerOn == old(board).timerOn
      ensures period >= 1 && Enabled(old(board), Start(frame)) ==> OutInv(board) && InInv(board)
    {
      if period < 1 {
        BoardStep(board, Stop);
        board := Next(board, Stop);
        return;
      }
      LaunchRight(board, frame);
      var _ := engine.StartSampling(frame);
      board, started := Launch(board, frame), true;
    }
  }
}
