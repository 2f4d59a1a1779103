/**
 The sampling engine refines two unbounded streams: the DAC plays what the host sent and the
 host receives what the ADC captured.
 */
module SamplingProofs {
  import opened Machine
  import opened Sampling

  // ----- counters -----

  lemma AdvancePhase(p: Position, q: nat, k: nat)
    requires k < 256 && AtPhase(p, q, k)
    ensures if k < 255 then AtPhase(Advance(p), q, k + 1) else AtPhase(Advance(p), q + 1, 0)
  {
  }

  /** One more sample pair moves the phase by one slot. */
  lemma NextPhase(n: nat)
    requires n >= 4
    ensures SlotAt(n) < 255 ==> PacketAt(n + 1) == PacketAt(n) && SlotAt(n + 1) == SlotAt(n) + 1
    ensures SlotAt(n) == 255 ==> PacketAt(n + 1) == PacketAt(n) + 1 && SlotAt(n + 1) == 0
  {
  }

  lemma AdvanceCounters(p: Position, n: nat)
    requires CountersAt(p, n)
    ensures CountersAt(Advance(p), n + 1)
  {
    if n >= 4 {
      NextPhase(n);
      AdvancePhase(p, PacketAt(n), SlotAt(n));
    }
  }

  lemma CountersStep(b: Board, e: Event)
    requires Counters(b) && Enabled(b, e)
    ensures Counters(Next(b, e))
  {
    if e.Timer? && b.fw.chan.ChanB? {
      AdvanceCounters(b.fw.pos, |b.captured| / 4);
    }
  }

  /** The pair count before and after a tick. */
  lemma PairsTick(b: Board, e: Event)
    requires Counters(b) && e.Timer? && Enabled(b, e)
    ensures |Next(b, e).captured| / 4 == |b.captured| / 4 + (if b.fw.chan.ChanA? then 0 else 1)
  {
  }

  // ----- OUT direction -----

  /** A sample pair requests a transfer only at slot 127, and for the row not being played. */
  lemma OutFlowPair(n: nat, p: Position, h: Handoff, job: OutJob, done: nat)
    requires CountersAt(p, n) && OutFlow(n, h, job, done) && done >= 1
    requires p.slotOut == 255 ==> !h.sendOut && !h.sendingOut
    ensures OutFlow(n + 1, Request(h, p), job, done)
  {
    if n >= 4 {
      NextPhase(n);
    }
  }

  lemma OutFlowTick(b: Board, e: Event)
    requires OutInv(b) && Enabled(b, e) && OutTimely(b, e) && e.Timer?
    ensures var c := Next(b, e); OutFlow(|c.captured| / 4, c.fw.hand, c.outJob, c.outDone) && OutStart(c)
  {
    PairsTick(b, e);
    if b.fw.chan.ChanB? {
      OutFlowPair(|b.captured| / 4, b.fw.pos, b.fw.hand, b.outJob, b.outDone);
    }
  }

  lemma OutFlowUsb(b: Board, e: Event)
    requires OutInv(b) && Enabled(b, e) && !e.Timer? && !e.Start?
    ensures var c := Next(b, e); OutFlow(|c.captured| / 4, c.fw.hand, c.outJob, c.outDone) && OutStart(c)
  {
    assert Next(b, e).captured == b.captured;
  }

  lemma OutFlowStep(b: Board, e: Event)
    requires OutInv(b) && Enabled(b, e) && OutTimely(b, e)
    ensures var c := Next(b, e); OutFlow(|c.captured| / 4, c.fw.hand, c.outJob, c.outDone) && OutStart(c)
  {
    if e.Timer? {
      OutFlowTick(b, e);
    } else if !e.Start? {
      OutFlowUsb(b, e);
    }
  }

  /** The next host half-word goes to the row and column its number names. */
  lemma OutTarget(b: Board)
    requires OutInv(b) && b.outJob.OutBusy? && b.outJob.count < OUT_WORDS
    ensures b.outJob.target == OutRowOf(|b.arrived|) && b.outJob.count == OutColOf(|b.arrived|)
  {
  }

  /** Half-words less than 1024 apart lie in different cells. */
  lemma DistinctOutCells(x: nat, y: nat)
    requires x < y < x + 1024
    ensures OutRowOf(x) != OutRowOf(y) || OutColOf(x) != OutColOf(y)
  {
  }

  lemma OutRowsWord(b: Board, e: Event)
    requires b.fw.Shaped() && OutRows(b) && e.UsbOutWord? && Enabled(b, e)
    requires b.outJob.target == OutRowOf(|b.arrived|) && b.outJob.count == OutColOf(|b.arrived|)
    ensures OutRows(Next(b, e))
  {
    var c := Next(b, e);
    var a := |b.arrived|;
    forall x | 0 <= x < |c.arrived| <= x + 1024
      ensures c.fw.packetsOut[OutRowOf(x)][OutColOf(x)] == c.arrived[x]
    {
      if x < a {
        DistinctOutCells(x, a);
      }
    }
  }

  lemma OutRowsStep(b: Board, e: Event)
    requires OutInv(b) && Enabled(b, e)
    ensures OutRows(Next(b, e))
  {
    if e.UsbOutWord? {
      OutTarget(b);
      OutRowsWord(b, e);
    } else {
      var c := Next(b, e);
      assert c.fw.packetsOut == b.fw.packetsOut;
      assert c.arrived == b.arrived || c.arrived == [];
    }
  }

  /** The half-word number the DAC plays at tick `t`. */
  function StreamIndex(t: nat): nat {
    if t < 8 then t else t - 8
  }

  /** The half-word the DAC needs next has arrived and has not been overwritten. */
  lemma StreamIndexLive(b: Board)
    requires OutInv(b) && b.timerOn
    ensures StreamIndex(|b.played|) < |b.arrived| <= StreamIndex(|b.played|) + 1024
  {
  }

  lemma DacCell(b: Board)
    requires Counters(b)
    ensures var x := StreamIndex(|b.played|);
            && b.fw.pos.packetOut == OutRowOf(x)
            && b.fw.pos.slotOut * 2 + (if b.fw.chan.ChanA? then 0 else 1) == OutColOf(x)
  {
    var x, n := StreamIndex(|b.played|), |b.captured| / 4;
    if n >= 4 {
      assert x == 512 * PacketAt(n) + (2 * SlotAt(n) + if b.fw.chan.ChanA? then 0 else 1);
    }
  }

  /** The half-word sent to the DAC is the next one of the host stream. */
  lemma DacReads(b: Board)
    requires OutInv(b) && b.timerOn
    ensures var x := StreamIndex(|b.played|); x < |b.arrived| && DacWord(b.fw) == b.arrived[x]
  {
    StreamIndexLive(b);
    DacCell(b);
  }

  lemma PlaysNext(played: seq<HalfWord>, arrived: seq<HalfWord>)
    requires PlaysStream(played, arrived) && StreamIndex(|played|) < |arrived|
    ensures PlaysStream(played + [arrived[StreamIndex(|played|)]], arrived)
  {
    if |played| == 8 {
      assert arrived[..8] + arrived[..1] == played + [arrived[0]];
    } else if |played| > 8 {
      var k := |played| - 8;
      assert arrived[..k + 1] == arrived[..k] + [arrived[k]];
    }
  }

  lemma OutInvStep(b: Board, e: Event)
    requires OutInv(b) && Enabled(b, e) && OutTimely(b, e)
    ensures OutInv(Next(b, e))
  {
    CountersStep(b, e);
    OutFlowStep(b, e);
    OutRowsStep(b, e);
    var c := Next(b, e);
    assert PlaysStream(c.played, c.arrived) by {
      match e
      case Timer(_, _) =>
        DacReads(b);
        PlaysNext(b.played, b.arrived);
      case UsbOutWord(w) =>
        assert forall k :: 0 <= k <= |b.arrived| ==> c.arrived[..k] == b.arrived[..k];
      case _ =>
    }
  }

  // ----- IN direction -----

  lemma InFlowPair(n: nat, p: Position, h: Handoff, job: InJob, done: nat, words: nat)
    requires CountersAt(p, n) && InFlow(n, h, job, done, words)
    requires p.slotOut == 255 ==> !h.sendIn && !h.sendingIn
    ensures InFlow(n + 1, Request(h, p), job, done, words)
  {
    if n >= 4 {
      NextPhase(n);
    }
  }

  lemma InFlowTick(b: Board, e: Event)
    requires InInv(b) && Enabled(b, e) && InTimely(b, e) && e.Timer?
    ensures var c := Next(b, e); InFlow(|c.captured| / 4, c.fw.hand, c.inJob, c.inDone, |c.delivered|)
  {
    PairsTick(b, e);
    if b.fw.chan.ChanB? {
      InFlowPair(|b.captured| / 4, b.fw.pos, b.fw.hand, b.inJob, b.inDone, |b.delivered|);
    }
  }

  lemma InFlowUsb(b: Board, e: Event)
    requires InInv(b) && Enabled(b, e) && !e.Timer? && !e.Start?
    ensures var c := Next(b, e); InFlow(|c.captured| / 4, c.fw.hand, c.inJob, c.inDone, |c.delivered|)
  {
  }

  lemma InFlowStep(b: Board, e: Event)
    requires InInv(b) && Enabled(b, e) && InTimely(b, e)
    ensures var c := Next(b, e); InFlow(|c.captured| / 4, c.fw.hand, c.inJob, c.inDone, |c.delivered|)
  {
    if e.Timer? {
      InFlowTick(b, e);
    } else if !e.Start? {
      InFlowUsb(b, e);
    }
  }

  /** The two words of an interrupt in the order of the recording. */
  function TickWords(f: Firmware, u1: HalfWord, u2: HalfWord): seq<HalfWord> {
    if f.chan.ChanA? then [u1, u2] else [u2, u1]
  }

  /** An interrupt writes the two cells it names and no other. */
  lemma TickWrites(f: Firmware, u1: HalfWord, u2: HalfWord, row: Bit, col: nat)
    requires f.Shaped() && col < IN_ROW
    ensures var cells, words := TickCells(f), TickWords(f, u1, u2);
            Capture(f, u1, u2)[row][col] ==
            if Cell(row, col) == cells[0] then words[0]
            else if Cell(row, col) == cells[1] then words[1]
            else f.packetsIn[row][col]
  {
  }

  /** The cell of word `w`, the pre-roll being over. */
  function CellOf(w: nat): Cell {
    Cell(InRowOf(w), InColOf(w))
  }

  lemma DivMod(x: nat, s: nat, h: nat)
    requires x == 1024 * s + h && h < 1024
    ensures x / 1024 == s && x % 1024 == h
  {
  }

  /** Half-word `h` of sweep `s`. */
  lemma CellIs(w: nat, s: nat, h: nat)
    requires w + 1000 == 1024 * s + h && h < 1024
    ensures CellOf(w) == Cell((1 + s) % 2, h)
  {
    DivMod(w + 1000, s, h);
  }

  /** Word `lane` of the pair captured while slot `k` of packet `q` is played. */
  lemma CellAt(w: nat, q: nat, k: nat, lane: nat)
    requires k < 256 && lane < 4 && w == 1024 * q + 4 * k + 16 + lane
    ensures CellOf(w) == if k < 2 then Cell((q + 1) % 2, (k + 254) * 4 + lane) else Cell(q % 2, (k - 2) * 4 + lane)
  {
    if k < 2 {
      CellIs(w, q, (k + 254) * 4 + lane);
    } else {
      CellIs(w, q + 1, (k - 2) * 4 + lane);
      assert (1 + (q + 1)) % 2 == q % 2;
    }
  }

  /** A tick stores its two words where words `m` and `m + 1` belong. */
  lemma CaptureTarget(b: Board)
    requires Counters(b) && |b.captured| >= 16
    ensures TickCells(b.fw) == [CellOf(|b.captured|), CellOf(|b.captured| + 1)]
  {
    var m := |b.captured|;
    var n := m / 4;
    var q, k := PacketAt(n), SlotAt(n);
    assert m == 1024 * q + 4 * k + 16 + m % 4;
    CellAt(m, q, k, m % 4);
    CellAt(m + 1, q, k, m % 4 + 1);
  }

  /** Words less than 2048 apart lie in different cells. */
  lemma DistinctCells(w: nat, v: nat)
    requires w < v < w + 2048
    ensures InRowOf(w) != InRowOf(v) || InColOf(w) != InColOf(v)
  {
  }

  lemma InRowsTick(b: Board, e: Event)
    requires Counters(b) && InRows(b) && e.Timer? && Enabled(b, e)
    ensures InRows(Next(b, e))
  {
    var c := Next(b, e);
    var m := |b.captured|;
    if m >= 16 {
      CaptureTarget(b);
      forall w | 16 <= w < |c.captured| <= w + 2048
        ensures c.fw.packetsIn[InRowOf(w)][InColOf(w)] == c.captured[w]
      {
        TickWrites(b.fw, e.u1, e.u2, InRowOf(w), InColOf(w));
        if w < m {
          DistinctCells(w, m);
          DistinctCells(w, m + 1);
        } else if w > m {
          DistinctCells(m, w);
        }
      }
    }
  }

  /** Before word `1040 + w` nothing after the pre-roll goes to the cell of pre-roll word `w`. */
  lemma PrerollCell(w: nat, v: nat)
    requires w < 8 && 16 <= v < w + 1040
    ensures CellOf(v) != Cell(0, 1016 + w)
  {
    DivMod(v + 1000, (v + 1000) / 1024, (v + 1000) % 1024);
  }

  lemma PrerollTick(b: Board, e: Event)
    requires Counters(b) && PrerollRow(b) && e.Timer? && Enabled(b, e)
    ensures PrerollRow(Next(b, e))
  {
    var c := Next(b, e);
    var m := |b.captured|;
    forall w | 0 <= w < 8 && w < |c.captured| <= w + 1040
      ensures c.fw.packetsIn[0][1016 + w] == c.captured[w]
    {
      TickWrites(b.fw, e.u1, e.u2, 0, 1016 + w);
      if m >= 16 {
        CaptureTarget(b);
        PrerollCell(w, m);
        PrerollCell(w, m + 1);
      }
    }
  }

  /** Every event keeps what the input buffer holds; no deadline is needed for that. */
  lemma InCellsStep(b: Board, e: Event)
    requires InCells(b) && Enabled(b, e)
    ensures InCells(Next(b, e))
  {
    CountersStep(b, e);
    if e.Timer? {
      InRowsTick(b, e);
      PrerollTick(b, e);
    }
  }

  /** The half-word the IN transfer fetches, when the pair that produces it is complete. */
  lemma UsbFetches(b: Board)
    requires InInv(b) && Enabled(b, UsbInWord) && 24 + |b.delivered| < |b.captured|
    ensures b.fw.packetsIn[b.inJob.target][b.inJob.count] == b.captured[24 + |b.delivered|]
  {
    var w, n := 24 + |b.delivered|, |b.captured| / 4;
    assert InRequested(n) == b.inDone + 1 && n >= 4;
    CellIs(w, b.inDone + 1, b.inJob.count);
    assert |b.captured| <= w + 2048;
  }

  lemma ReceivesNext(delivered: seq<HalfWord>, captured: seq<HalfWord>)
    requires ReceivesStream(delivered, captured) && 24 + |delivered| < |captured|
    ensures ReceivesStream(delivered + [captured[24 + |delivered|]], captured)
  {
  }

  lemma ReceivesCapture(delivered: seq<HalfWord>, captured: seq<HalfWord>, more: seq<HalfWord>)
    requires ReceivesStream(delivered, captured) && captured <= more
    ensures ReceivesStream(delivered, more)
  {
  }

  lemma ReceivesStep(b: Board, e: Event)
    requires InInv(b) && Enabled(b, e) && InTimely(b, e)
    ensures ReceivesStream(Next(b, e).delivered, Next(b, e).captured)
  {
    if e.UsbInWord? {
      UsbFetches(b);
      ReceivesNext(b.delivered, b.captured);
    } else if e.Timer? {
      ReceivesCapture(b.delivered, b.captured, Next(b, e).captured);
    }
  }

  lemma InInvStep(b: Board, e: Event)
    requires InInv(b) && Enabled(b, e) && InTimely(b, e)
    ensures InInv(Next(b, e))
  {
    InCellsStep(b, e);
    InFlowStep(b, e);
    ReceivesStep(b, e);
  }

  // ----- whole runs -----

  /** Every run from a start keeps the OUT invariant while the host keeps its deadline. */
  lemma {:induction false} OutInvRun(b: Board, es: seq<Event>)
    requires OutInv(b) && OutTimelyRun(b, es)
    ensures OutInv(Run(b, es))
  {
    if es != [] {
      var k := |es| - 1;
      assert forall i :: 0 <= i <= k ==> es[..k][..i] == es[..i];
      OutInvRun(b, es[..k]);
      var p := Run(b, es[..k]);
      if Enabled(p, es[k]) {
        OutInvStep(p, es[k]);
      }
    }
  }

  lemma {:induction false} InInvRun(b: Board, es: seq<Event>)
    requires InInv(b) && InTimelyRun(b, es)
    ensures InInv(Run(b, es))
  {
    if es != [] {
      var k := |es| - 1;
      assert forall i :: 0 <= i <= k ==> es[..k][..i] == es[..i];
      InInvRun(b, es[..k]);
      var p := Run(b, es[..k]);
      if Enabled(p, es[k]) {
        InInvStep(p, es[k]);
      }
    }
  }

  lemma LaunchInit(b: Board, frame: nat)
    requires b.fw.Shaped() && Enabled(b, Start(frame))
    ensures OutInv(Launch(b, frame)) && InInv(Launch(b, frame))
  {
  }

  /** While the timer runs, USB never writes the row being played. */
  lemma NoOverwrite(b: Board)
    requires OutInv(b) && b.timerOn && b.outJob.OutBusy?
    ensures b.outJob.target != b.fw.pos.packetOut
  {
    assert |b.captured| / 4 >= 4;
  }

  /**
   DAC stream refinement. Whatever the board held before, after a start and any run in which
   each requested OUT transfer completes before the slot counter wraps, the DAC has received
   slots 0 to 3 of packet 0 and then the host's half-words from the first one on, in order,
   and USB is not writing the row being played.
   */
  lemma DacStream(b: Board, frame: nat, es: seq<Event>)
    requires b.fw.Shaped() && Enabled(b, Start(frame))
    requires OutTimelyRun(Launch(b, frame), es)
    ensures var c := Run(Launch(b, frame), es);
            && PlaysStream(c.played, c.arrived)
            && (c.timerOn && c.outJob.OutBusy? ==> c.outJob.target != c.fw.pos.packetOut)
  {
    LaunchInit(b, frame);
    OutInvRun(Launch(b, frame), es);
    var c := Run(Launch(b, frame), es);
    if c.timerOn && c.outJob.OutBusy? {
      NoOverwrite(c);
    }
  }

  /**
   ADC stream refinement. After a start and any run in which each IN transfer completes before
   the next hand-over and does not overtake the two slots still to be filled, the host has
   received the captured words from the seventh sample pair on, in order, none lost and none
   repeated, from rows 0, 1, 0, 1, ...
   */
  lemma AdcStream(b: Board, frame: nat, es: seq<Event>)
    requires b.fw.Shaped() && Enabled(b, Start(frame))
    requires InTimelyRun(Launch(b, frame), es)
    ensures var c := Run(Launch(b, frame), es);
            && ReceivesStream(c.delivered, c.captured)
            && (c.inJob.InBusy? ==> c.inJob.target == c.inDone % 2)
  {
    LaunchInit(b, frame);
    InInvRun(Launch(b, frame), es);
  }

  lemma {:induction false} CountersRun(b: Board, es: seq<Event>)
    requires Counters(b)
    ensures Counters(Run(b, es))
  {
    if es != [] {
      var k := |es| - 1;
      CountersRun(b, es[..k]);
      var p := Run(b, es[..k]);
      if Enabled(p, es[k]) {
        CountersStep(p, es[k]);
      }
    }
  }

  predicate ClosedForm(p: Position, n: nat)
    requires n >= 4
  {
    && p.slotOut == (n - 4) % 256 && p.slotIn == Wrap8(p.slotOut - 2)
    && p.packetOut == ((n - 4) / 256) % 2 && p.packetIn == (1 + (n + 250) / 256) % 2
  }

  lemma PhaseClosedForm(p: Position, n: nat)
    requires n >= 4 && CountersAt(p, n)
    ensures ClosedForm(p, n)
  {
    assert n + 250 == 256 * PacketAt(n) + (SlotAt(n) + 254);
    assert (n + 250) / 256 == PacketAt(n) + (if SlotAt(n) < 2 then 0 else 1);
  }

  /**
   Closed form of the 8-bit counters after `n >= 4` sample pairs of any run, despite the wrap
   and the four-slot correction at the end of the pre-roll.
   */
  lemma CounterClosedForm(b: Board, frame: nat, es: seq<Event>)
    requires b.fw.Shaped() && Enabled(b, Start(frame))
    ensures var c := Run(Launch(b, frame), es);
            var n := |c.captured| / 4;
            var p := c.fw.pos;
            n >= 4 ==> ClosedForm(p, n)
  {
    LaunchInit(b, frame);
    CountersRun(Launch(b, frame), es);
    var c := Run(Launch(b, frame), es);
    var n := |c.captured| / 4;
    if n >= 4 {
      PhaseClosedForm(c.fw.pos, n);
    }
  }

  // ----- the IN sweep and its hand-over, in every run -----

  lemma {:induction false} InCellsRun(b: Board, es: seq<Event>)
    requires InCells(b)
    ensures InCells(Run(b, es))
  {
    if es != [] {
      var k := |es| - 1;
      InCellsRun(b, es[..k]);
      var p := Run(b, es[..k]);
      if Enabled(p, es[k]) {
        InCellsStep(p, es[k]);
      }
    }
  }

  /** Cell `w` of the recording, the pre-roll being over. */
  predicate TargetsKnown(ts: seq<Cell>) {
    forall w :: 16 <= w < |ts| ==> ts[w] == CellOf(w)
  }

  lemma TargetsStep(b: Board, e: Event, ts: seq<Cell>)
    requires Counters(b) && Enabled(b, e) && TargetsKnown(ts) && |ts| == |b.captured|
    ensures var us := NextTargets(b, e, ts); TargetsKnown(us) && |us| == |Next(b, e).captured|
  {
    if e.Timer? && |ts| >= 16 {
      CaptureTarget(b);
    }
  }

  lemma {:induction false} TargetsRun(b: Board, es: seq<Event>)
    requires Counters(b) && b.captured == []
    ensures |Targets(b, es)| == |Run(b, es).captured| && TargetsKnown(Targets(b, es))
  {
    if es != [] {
      var k := |es| - 1;
      TargetsRun(b, es[..k]);
      CountersRun(b, es[..k]);
      var p := Run(b, es[..k]);
      if Enabled(p, es[k]) {
        TargetsStep(p, es[k], Targets(b, es[..k]));
      }
    }
  }

  lemma SweepCell(q: nat, h: nat)
    requires q >= 1 && h < IN_WORDS
    ensures InRowOf(1024 * q + h - 1000) == (1 + q) % 2 && InColOf(1024 * q + h - 1000) == h
    ensures InRowOf(1024 * q - 1001) != (1 + q) % 2
  {
    CellIs(1024 * q + h - 1000, q, h);
    CellIs(1024 * q - 1001, q - 1, 1023);
  }

  /** Each half-word of the row exactly once, in ascending order. */
  predicate Sweeps(cells: seq<Cell>, row: Bit) {
    |cells| == IN_WORDS && forall h :: 0 <= h < IN_WORDS ==> cells[h] == Cell(row, h)
  }

  lemma SweepOf(ts: seq<Cell>, q: nat)
    requires TargetsKnown(ts) && q >= 1 && 1024 * q + 24 <= |ts|
    ensures Sweeps(ts[1024 * q - 1000..1024 * q + 24], (1 + q) % 2)
    ensures ts[1024 * q - 1001].row != (1 + q) % 2
  {
    var sweep := ts[1024 * q - 1000..1024 * q + 24];
    SweepCell(q, 0);
    forall h | 0 <= h < IN_WORDS
      ensures sweep[h] == Cell((1 + q) % 2, h)
    {
      SweepCell(q, h);
      assert sweep[h] == ts[1024 * q + h - 1000];
    }
  }

  /**
   Sweep bijection. In every run, between two flips of the input buffer the interrupts write the
   1024 half-words of one row, each exactly once and in ascending order; the word before the sweep
   went to the other row.
   */
  lemma SweepBijection(b: Board, frame: nat, es: seq<Event>, q: nat)
    requires b.fw.Shaped() && Enabled(b, Start(frame)) && q >= 1
    requires 1024 * q + 24 <= |Targets(Launch(b, frame), es)|
    ensures var ts := Targets(Launch(b, frame), es);
            && |ts| == |Run(Launch(b, frame), es).captured|
            && Sweeps(ts[1024 * q - 1000..1024 * q + 24], (1 + q) % 2)
            && ts[1024 * q - 1001].row != (1 + q) % 2
  {
    LaunchInit(b, frame);
    TargetsRun(Launch(b, frame), es);
    SweepOf(Targets(Launch(b, frame), es), q);
  }

  predicate NoStart(es: seq<Event>) {
    forall i :: 0 <= i < |es| ==> !es[i].Start?
  }

  lemma {:induction false} CapturedGrows(b: Board, es: seq<Event>)
    requires b.fw.Shaped() && NoStart(es)
    ensures b.captured <= Run(b, es).captured
  {
    if es != [] {
      var k := |es| - 1;
      CapturedGrows(b, es[..k]);
      var p := Run(b, es[..k]);
      assert Enabled(p, es[k]) ==> p.captured <= Next(p, es[k]).captured;
    }
  }

  /** The tick that wraps the slot counter hands the row of sweep `k` over. */
  lemma WrapHandsOver(b: Board, e: Event, k: nat)
    requires Counters(b) && Enabled(b, e) && Wraps(b, e) && k == |Next(b, e).captured| / 1024
    ensures var c := Next(b, e);
            && k >= 1 && |c.captured| == 1024 * k + 16
            && c.fw.hand.sendIn && c.fw.hand.sendIdxIn == (1 + k) % 2
  {
    var n := |b.captured| / 4;
    assert n >= 4 && SlotAt(n) == 255;
    assert |b.captured| + 2 == 4 * (n + 1) && n + 1 == 256 * (PacketAt(n) + 1) + 4;
  }

  /** From its capture until 258 pairs after hand-over `k`, a word of sweep `k` is in its cell. */
  lemma SweepHeld(b: Board, k: nat, h: nat)
    requires InCells(b) && k >= 1 && h < IN_WORDS
    requires 1024 * k + h - 1000 < |b.captured| <= 1024 * k + 16 + 4 * 258
    ensures b.fw.packetsIn[(1 + k) % 2][h] == b.captured[1024 * k + h - 1000]
  {
    SweepCell(k, h);
  }

  /** `d` is the board at hand-over `k` and `f` the board at most 258 pairs later. */
  predicate SweepKept(d: Board, f: Board, k: nat, h: nat)
    requires d.fw.Shaped() && f.fw.Shaped() && k >= 1 && h < IN_WORDS
    requires |d.captured| == 1024 * k + 16 <= |f.captured|
  {
    var row := (1 + k) % 2;
    && (h < 1016 ==> f.fw.packetsIn[row][h] == d.fw.packetsIn[row][h] == d.captured[1024 * k + h - 1000])
    && (h >= 1016 && |f.captured| >= |d.captured| + 8 ==>
          f.fw.packetsIn[row][h] == f.captured[1024 * k + h - 1000])
  }

  lemma SweepStays(d: Board, f: Board, k: nat, h: nat)
    requires InCells(d) && InCells(f) && k >= 1 && h < IN_WORDS
    requires |d.captured| == 1024 * k + 16 && d.captured <= f.captured && |f.captured| <= |d.captured| + 4 * 258
    ensures SweepKept(d, f, k, h)
  {
    if h < 1016 {
      SweepHeld(d, k, h);
      SweepHeld(f, k, h);
    } else if |f.captured| >= |d.captured| + 8 {
      SweepHeld(f, k, h);
    }
  }

  lemma SweepStaysRun(d: Board, more: seq<Event>, k: nat, h: nat)
    requires InCells(d) && k >= 1 && h < IN_WORDS && |d.captured| == 1024 * k + 16 && NoStart(more)
    ensures var f := Run(d, more);
            d.captured <= f.captured && (|f.captured| <= |d.captured| + 4 * 258 ==> SweepKept(d, f, k, h))
  {
    InCellsRun(d, more);
    CapturedGrows(d, more);
    if |Run(d, more).captured| <= |d.captured| + 4 * 258 {
      SweepStays(d, Run(d, more), k, h);
    }
  }

  /** `d` requests the row of sweep `k`, and what `f`, a later board, still holds of it. */
  predicate HandedOver(d: Board, f: Board, k: nat, h: nat)
    requires d.fw.Shaped() && f.fw.Shaped() && h < IN_WORDS
  {
    && k >= 1 && |d.captured| == 1024 * k + 16 && d.captured <= f.captured
    && d.fw.hand.sendIn && d.fw.hand.sendIdxIn == (1 + k) % 2
    && (|f.captured| <= |d.captured| + 4 * 258 ==> SweepKept(d, f, k, h))
  }

  lemma HandoverFrom(c: Board, e: Event, more: seq<Event>, h: nat)
    requires InCells(c) && Enabled(c, e) && Wraps(c, e) && NoStart(more) && h < IN_WORDS
    ensures var d := Next(c, e); HandedOver(d, Run(d, more), |d.captured| / 1024, h)
  {
    var d := Next(c, e);
    var k := |d.captured| / 1024;
    WrapHandsOver(c, e, k);
    InCellsStep(c, e);
    SweepStaysRun(d, more, k, h);
  }

  /**
   Hand-over. In every run, whatever the host does, the tick that wraps the slot counter requests
   the row of the sweep that is ending, rows 0, 1, 0, 1, ...; slots 0 to 253 of it hold that sweep
   and are not rewritten for 258 sample pairs, and slots 254 and 255 hold it two pairs later.
   */
  lemma HandoverWindow(b: Board, frame: nat, es: seq<Event>, e: Event, more: seq<Event>, h: nat)
    requires b.fw.Shaped() && Enabled(b, Start(frame)) && NoStart(more) && h < IN_WORDS
    requires var c := Run(Launch(b, frame), es); Enabled(c, e) && Wraps(c, e)
    ensures var d := Next(Run(Launch(b, frame), es), e);
            HandedOver(d, Run(d, more), |d.captured| / 1024, h)
  {
    LaunchInit(b, frame);
    InCellsRun(Launch(b, frame), es);
    HandoverFrom(Run(Launch(b, frame), es), e, more, h);
  }

  // ----- where the deadlines are needed -----

  /** The IN transfer under way reads the row handed over last, from slot 254 on if the word is not captured yet. */
  lemma EarlyFetchSlot(b: Board)
    requires InInv(b) && Enabled(b, UsbInWord) && 24 + |b.delivered| >= |b.captured|
    ensures |b.delivered| == 1024 * b.inDone + b.inJob.count && b.inJob.count >= 1016
    ensures b.inJob.target == b.inDone % 2 && |b.captured| >= 1024 * b.inDone + 1040
  {
    var n := |b.captured| / 4;
    assert InRequested(n) == b.inDone + 1 && n >= 4;
  }

  /**
   A half-word of slots 254 or 255 that is fetched too early is the one of two sweeps ago, and in
   the first packet the one of the first two sample pairs.
   */
  lemma EarlyFetchIsStale(b: Board)
    requires InInv(b) && Enabled(b, UsbInWord) && 24 + |b.delivered| >= |b.captured|
    ensures b.inJob.count >= 1016
    ensures var x := |b.delivered| - if |b.delivered| < 1024 then 1016 else 2024;
            0 <= x < |b.captured| && b.fw.packetsIn[b.inJob.target][b.inJob.count] == b.captured[x]
  {
    EarlyFetchSlot(b);
    if b.inDone >= 1 {
      CellIs(|b.delivered| - 2024, b.inDone - 1, b.inJob.count);
    }
  }

  /** Once the slot counter wraps, USB owns or is about to own the row being played iff the deadline was missed. */
  lemma DeadlineExact(b: Board, e: Event)
    requires OutInv(b) && Enabled(b, e) && Wraps(b, e)
    ensures var c := Next(b, e);
            var h := c.fw.hand;
            OutTimely(b, e) <==>
              && !(c.outJob.OutBusy? && c.outJob.target == c.fw.pos.packetOut)
              && !(h.sendOut && h.sendIdxOut == c.fw.pos.packetOut)
  {
    var n := |b.captured| / 4;
    assert n >= 4 && SlotAt(n) == 255;
    NextPhase(n);
    AdvancePhase(b.fw.pos, PacketAt(n), 255);
  }

  /** With a start still pending, the next frame starts the timer before any packet. */
  lemma PendingStartFires(b: Board, frame: nat)
    requires b.fw.Shaped() && !b.timerOn && b.fw.startTimer
    ensures var c := Launch(b, frame);
            var es := [Sof(frame)];
            OutTimelyRun(c, es) && Run(c, es).timerOn && Run(c, es).arrived == []
  {
    var c := Launch(b, frame);
    var es := [Sof(frame)];
    assert es[..0] == [];
    assert Run(c, es) == Next(c, es[0]);
  }

  // ----- runs that lead there -----

  ghost predicate Reaches(b: Board, c: Board)
    requires b.fw.Shaped()
  {
    exists es: seq<Event> :: Run(b, es) == c
  }

  lemma ReachesSelf(b: Board)
    requires b.fw.Shaped()
    ensures Reaches(b, b)
  {
    assert Run(b, []) == b;
  }

  lemma ReachesNext(b: Board, c: Board, e: Event)
    requires b.fw.Shaped() && Reaches(b, c) && c.fw.Shaped() && Enabled(c, e)
    ensures Reaches(b, Next(c, e))
  {
    var es: seq<Event> :| Run(b, es) == c;
    assert (es + [e])[..|es|] == es;
    assert Run(b, es + [e]) == Next(c, e);
  }

  /** `n` words of a first packet have arrived. */
  predicate Receiving(c: Board, frame: nat, n: nat) {
    && InInv(c) && c.outJob == OutBusy(0, n, true) && !c.timerOn && !c.fw.sentOut && c.fw.startFrame == frame
    && c.captured == c.delivered == [] && c.inJob == InIdle
  }

  lemma ReceivingNext(c: Board, frame: nat, n: nat)
    requires Receiving(c, frame, n) && n < OUT_WORDS
    ensures Receiving(Next(c, UsbOutWord(0)), frame, n + 1)
  {
    InInvStep(c, UsbOutWord(0));
  }

  lemma LaunchReceiving(b: Board, frame: nat)
    requires b.fw.Shaped() && Enabled(b, Start(frame))
    ensures Receiving(Launch(b, frame), frame, 0)
  {
    LaunchInit(b, frame);
  }

  lemma {:induction false} FirstWords(s: Board, frame: nat, n: nat) returns (c: Board)
    requires Receiving(s, frame, 0) && n <= OUT_WORDS
    ensures Reaches(s, c) && Receiving(c, frame, n)
  {
    if n == 0 {
      c := s;
      ReachesSelf(s);
    } else {
      var p := FirstWords(s, frame, n - 1);
      ReceivingNext(p, frame, n - 1);
      ReachesNext(s, p, UsbOutWord(0));
      c := Next(p, UsbOutWord(0));
    }
  }

  /** Packet 0 is complete. */
  predicate Pending(c: Board, frame: nat) {
    && InInv(c) && c.fw.startTimer && !c.timerOn && c.fw.startFrame == frame
    && c.captured == c.delivered == [] && c.inJob == InIdle
  }

  lemma PendingNext(c: Board, frame: nat)
    requires Receiving(c, frame, OUT_WORDS)
    ensures Pending(Next(c, UsbOutDone), frame)
  {
    InInvStep(c, UsbOutDone);
  }

  lemma FirstPacket(b: Board, frame: nat) returns (c: Board)
    requires b.fw.Shaped() && Enabled(b, Start(frame))
    ensures Reaches(Launch(b, frame), c) && Pending(c, frame)
  {
    LaunchReceiving(b, frame);
    var p := FirstWords(Launch(b, frame), frame, OUT_WORDS);
    PendingNext(p, frame);
    ReachesNext(Launch(b, frame), p, UsbOutDone);
    c := Next(p, UsbOutDone);
  }

  /** A pending start is reachable: packet 0 has arrived and its frame has not come yet. */
  lemma PendingStartReachable(b: Board, frame: nat)
    requires b.fw.Shaped() && Enabled(b, Start(frame))
    ensures exists es: seq<Event> :: var c := Run(Launch(b, frame), es); c.fw.startTimer && !c.timerOn
  {
    var c := FirstPacket(b, frame);
    var es: seq<Event> :| Run(Launch(b, frame), es) == c;
  }

  /** The timer runs, nothing is delivered yet, no IN transfer is under way and `m` words are captured. */
  predicate Sampled(b: Board, m: nat) {
    InInv(b) && b.timerOn && |b.captured| == m && b.delivered == [] && b.inJob == InIdle
  }

  lemma SampledNext(b: Board, m: nat)
    requires Sampled(b, m) && m < 1040
    ensures Sampled(Next(b, Timer(0, 0)), m + 2)
  {
    InInvStep(b, Timer(0, 0));
  }

  lemma TimerStarts(c: Board, frame: nat)
    requires Pending(c, frame)
    ensures Sampled(Next(c, Sof(frame)), 0)
  {
    InInvStep(c, Sof(frame));
  }

  lemma {:induction false} SampledTicks(s: Board, b: Board, n: nat) returns (c: Board)
    requires s.fw.Shaped() && Reaches(s, b) && Sampled(b, 0) && n <= 520
    ensures Reaches(s, c) && Sampled(c, 2 * n)
  {
    if n == 0 {
      c := b;
    } else {
      var p := SampledTicks(s, b, n - 1);
      SampledNext(p, 2 * (n - 1));
      ReachesNext(s, p, Timer(0, 0));
      c := Next(p, Timer(0, 0));
    }
  }

  /** The IN transfer of the first row has fetched `n` half-words. */
  predicate Fetched(b: Board, n: nat) {
    InInv(b) && b.inJob.InBusy? && |b.captured| == 1040 && |b.delivered| == n
  }

  lemma FetchStarts(b: Board)
    requires Sampled(b, 1040)
    ensures Fetched(Next(b, LoopIn), 0)
  {
    InInvStep(b, LoopIn);
  }

  lemma FetchNext(b: Board, n: nat)
    requires Fetched(b, n) && n < 1016
    ensures Enabled(b, UsbInWord) && Fetched(Next(b, UsbInWord), n + 1)
  {
    InInvStep(b, UsbInWord);
  }

  lemma {:induction false} FetchRun(s: Board, b: Board, n: nat) returns (c: Board)
    requires s.fw.Shaped() && Reaches(s, b) && Fetched(b, 0) && n <= 1016
    ensures Reaches(s, c) && Fetched(c, n)
  {
    if n == 0 {
      c := b;
    } else {
      var p := FetchRun(s, b, n - 1);
      FetchNext(p, n - 1);
      ReachesNext(s, p, UsbInWord);
      c := Next(p, UsbInWord);
    }
  }

  /** The events up to the first hand-over, its main-loop pass and the fetch of slots 0 to 253. */
  lemma FirstFetches(b: Board, frame: nat) returns (c: Board)
    requires b.fw.Shaped() && Enabled(b, Start(frame))
    ensures Reaches(Launch(b, frame), c) && Fetched(c, 1016)
  {
    var s := Launch(b, frame);
    var p := FirstPacket(b, frame);
    TimerStarts(p, frame);
    ReachesNext(s, p, Sof(frame));
    var q := SampledTicks(s, Next(p, Sof(frame)), 520);
    FetchStarts(q);
    ReachesNext(s, q, LoopIn);
    c := FetchRun(s, Next(q, LoopIn), 1016);
  }

  /** An early fetch is reachable: after slots 0 to 253 of the first row, with slot 254 not sampled yet. */
  lemma EarlyFetchReachable(b: Board, frame: nat)
    requires b.fw.Shaped() && Enabled(b, Start(frame))
    ensures exists es: seq<Event> ::
              var c := Run(Launch(b, frame), es);
              InInv(c) && Enabled(c, UsbInWord) && 24 + |c.delivered| >= |c.captured|
  {
    var c := FirstFetches(b, frame);
    var es: seq<Event> :| Run(Launch(b, frame), es) == c;
  }

  // ----- when the timer starts -----

  /** The frame that a request with start frame `f` waits for. */
  predicate FrameComes(e: Event, f: nat) {
    e.Sof? && (f == 0 || e.frame == f)
  }

  /** What holds of the start until the next one, deadlines or not. */
  predicate Starting(b: Board, f: nat) {
    && b.fw.Shaped() && b.fw.startFrame == f
    && (b.outDone == 0 ==>
          b.outJob.OutBusy? && b.outJob.first && !b.timerOn && !b.fw.startTimer && !b.fw.sentOut)
    && (b.outDone > 0 ==>
          b.fw.sentOut && (b.outJob.OutBusy? ==> !b.outJob.first) && (b.fw.startTimer <==> !b.timerOn))
  }

  /** A frame starts the timer exactly when it is awaited and packet 0 has arrived. */
  lemma StartingStep(b: Board, f: nat, e: Event)
    requires Starting(b, f) && Enabled(b, e) && !e.Start? && !e.Stop?
    ensures var c := Next(b, e);
            Starting(c, f) && b.outDone <= c.outDone && (c.timerOn <==> b.timerOn || (FrameComes(e, f) && b.outDone > 0))
  {
  }

  /** No stop and no later start. */
  predicate Undisturbed(es: seq<Event>) {
    forall i :: 0 <= i < |es| ==> !es[i].Start? && !es[i].Stop?
  }

  /** Some event of the run is an awaited frame after packet 0 is complete. */
  ghost predicate FrameCame(b: Board, es: seq<Event>, f: nat)
    requires b.fw.Shaped()
  {
    es != [] &&
    var k := |es| - 1;
    FrameCame(b, es[..k], f) || (FrameComes(es[k], f) && Run(b, es[..k]).outDone > 0)
  }

  lemma {:induction false} StartingRun(b: Board, f: nat, es: seq<Event>)
    requires Starting(b, f) && !b.timerOn && Undisturbed(es)
    ensures var c := Run(b, es); Starting(c, f) && (c.timerOn <==> FrameCame(b, es, f))
  {
    if es != [] {
      var k := |es| - 1;
      StartingRun(b, f, es[..k]);
      var p := Run(b, es[..k]);
      if Enabled(p, es[k]) {
        StartingStep(p, f, es[k]);
      }
    }
  }

  /**
   The start frame. After a start with frame `f` and any run without stop and later start, deadlines
   kept or not, the timer is on if and only if frame `f`, or any frame when `f` is 0, has come after
   packet 0 was complete.
   */
  lemma TimerOnExact(b: Board, f: nat, es: seq<Event>)
    requires b.fw.Shaped() && Enabled(b, Start(f)) && Undisturbed(es)
    ensures Run(Launch(b, f), es).timerOn <==> FrameCame(Launch(b, f), es, f)
  {
    StartingRun(Launch(b, f), f, es);
  }

  // ----- the pending start -----

  lemma TimerNeedsPacket(c: Board)
    requires OutStart(c) && c.timerOn
    ensures |c.arrived| >= OUT_WORDS
  {
  }

  lemma TimerAfterPacketZero(b: Board, frame: nat, es: seq<Event>)
    requires b.fw.Shaped() && Enabled(b, Start(frame)) && OutTimelyRun(Launch(b, frame), es)
    ensures var c := Run(Launch(b, frame), es); c.timerOn ==> |c.arrived| >= OUT_WORDS
  {
    var s := Launch(b, frame);
    LaunchInit(b, frame);
    OutInvRun(s, es);
    if Run(s, es).timerOn {
      TimerNeedsPacket(Run(s, es));
    }
  }

  /**
   Request 0xC5 does not clear `start_timer`: the timer waits for packet 0 in every timely run
   exactly when no earlier start was still pending.
   */
  lemma TimerWaitsForPacketZero(b: Board, frame: nat)
    requires b.fw.Shaped() && !b.timerOn
    ensures !b.fw.startTimer <==>
            forall es: seq<Event> :: OutTimelyRun(Launch(b, frame), es) ==>
              var c := Run(Launch(b, frame), es); c.timerOn ==> |c.arrived| >= OUT_WORDS
  {
    if b.fw.startTimer {
      PendingStartFires(b, frame);
    } else {
      forall es: seq<Event> | OutTimelyRun(Launch(b, frame), es)
        ensures var c := Run(Launch(b, frame), es); c.timerOn ==> |c.arrived| >= OUT_WORDS
      {
        TimerAfterPacketZero(b, frame, es);
      }
    }
  }
}
