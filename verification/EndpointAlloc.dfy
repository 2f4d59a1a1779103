/**
 Endpoint configuration of `udphs_device.c` and `udphs_device.h`: the size field, and the
 reorganisation of endpoint memory when an endpoint is allocated below others that are running.
 */
module EndpointAlloc {
  import opened Machine
  import opened Bulk
  import opened BulkProofs
  import opened BulkTiling
  import opened BulkLimits
  import opened EndpointRestart

  // ----- endpoint size field -----

  /** `32 - clz(n)`. */
  function BitLength(n: nat): nat {
    if n == 0 then 0 else 1 + BitLength(n / 2)
  }

  function Pow2(k: nat): nat {
    if k == 0 then 1 else 2 * Pow2(k - 1)
  }

  function Clamp(size: int): nat {
    if size < 8 then 8 else if size > 1024 then 1024 else size
  }

  /** `udd_format_endpoint_size`. */
  function FormatSize(size: int): int {
    BitLength(2 * Clamp(size) - 1) - 1 - 3
  }

  /** `udd_get_endpoint_size` for a size field. */
  function FieldSize(field: nat): nat {
    8 * Pow2(field)
  }

  /** The eight endpoint sizes. */
  lemma FieldSizes(field: nat)
    requires field < 8
    ensures FieldSize(field) == [8, 16, 32, 64, 128, 256, 512, 1024][field]
  {
    assert Pow2(2) == 4 && Pow2(3) == 8;
    assert Pow2(4) == 2 * Pow2(3) && Pow2(5) == 2 * Pow2(4);
    assert Pow2(6) == 2 * Pow2(5) && Pow2(7) == 2 * Pow2(6);
  }

  lemma {:induction false} BitLengthBounds(n: nat)
    requires n > 0
    ensures BitLength(n) > 0 && Pow2(BitLength(n) - 1) <= n < Pow2(BitLength(n))
  {
    if n > 1 {
      BitLengthBounds(n / 2);
    }
  }

  lemma {:induction false} Pow2Monotone(a: nat, b: nat)
    requires a < b
    ensures 2 * Pow2(a) <= Pow2(b)
  {
    if a + 1 < b {
      Pow2Monotone(a, b - 1);
    }
  }

  lemma EightTimes(k: nat)
    ensures Pow2(k + 3) == 8 * Pow2(k)
  {
    assert Pow2(k + 3) == 2 * Pow2(k + 2) && Pow2(k + 2) == 2 * Pow2(k + 1);
  }

  /**
   The size field fits three bits and its meaning is the least expressible size that is not below
   the requested one, once that is clamped to the supported range.
   */
  lemma FormatIsLeast(size: int)
    ensures 0 <= FormatSize(size) <= 7
    ensures 8 <= size <= 1024 ==> FieldSize(FormatSize(size)) >= size
    ensures size < 8 ==> FormatSize(size) == 0
    ensures size > 1024 ==> FormatSize(size) == 7
    ensures FieldSize(FormatSize(size)) >= Clamp(size)
    ensures forall f: nat :: FieldSize(f) >= Clamp(size) ==> f >= FormatSize(size)
  {
    var c := Clamp(size);
    var b := BitLength(2 * c - 1);
    BitLengthBounds(2 * c - 1);
    assert Pow2(4) == 16 && Pow2(3) == 8;
    assert Pow2(7) == 128 && Pow2(11) == 2048 by {
      assert Pow2(7) == 2 * Pow2(6) && Pow2(6) == 2 * Pow2(5) && Pow2(5) == 2 * Pow2(4);
      assert Pow2(11) == 2 * Pow2(10) && Pow2(10) == 2 * Pow2(9) && Pow2(9) == 2 * Pow2(8) && Pow2(8) == 2 * Pow2(7);
    }
    if b < 4 {
      Pow2Monotone(b, 4);
    }
    if b > 11 {
      Pow2Monotone(11, b);
    }
    EightTimes(b - 4);
    forall f: nat | FieldSize(f) >= c
      ensures f >= b - 4
    {
      if f < b - 4 {
        Pow2Monotone(f, b - 4);
      }
    }
  }

  // ----- packed bank numbers -----

  function Pow4(k: nat): (r: nat)
    ensures r > 0
  {
    if k == 0 then 1 else 4 * Pow4(k - 1)
  }

  /** Two bits of the saved word: `(word >> (i * 2)) & 3`. */
  function BankOf(word: nat, i: nat): nat {
    if i == 0 then word % 4 else BankOf(word / 4, i - 1)
  }

  /** The word is zero below bit `2 * i`. */
  predicate LowClear(word: nat, i: nat) {
    if i == 0 then true else word % 4 == 0 && LowClear(word / 4, i - 1)
  }

  /** `word | bank << (i * 2)` where those two bits are still zero. */
  function SaveBank(word: nat, i: nat, bank: nat): nat {
    if i == 0 then word + bank else word % 4 + 4 * SaveBank(word / 4, i - 1, bank)
  }

  /** Saving one bank number leaves those saved for higher endpoints alone, inside `n` pairs of bits. */
  lemma {:induction false} SaveBankReads(word: nat, i: nat, bank: nat, k: nat, n: nat)
    requires LowClear(word, i + 1) && bank < 4 && i < n && word < Pow4(n)
    ensures LowClear(SaveBank(word, i, bank), i) && SaveBank(word, i, bank) < Pow4(n)
    ensures k == i ==> BankOf(SaveBank(word, i, bank), k) == bank
    ensures k > i ==> BankOf(SaveBank(word, i, bank), k) == BankOf(word, k)
    decreases i
  {
    if i > 0 {
      SaveBankReads(word / 4, i - 1, bank, if k > 0 then k - 1 else 0, n - 1);
    }
  }

  // ----- the controller -----

  /** What the hardware tells about each endpoint: room in memory again, end of transfer, bytes of the window moved. */
  datatype Status = Status(mapped: bool, ended: bool, partial: nat)

  /** A configured endpoint before it is enabled. */
  function Configured(e: Ep, dirIn: bool, epSize: EpSize): Ep {
    e.(hw := e.hw.(dirIn := dirIn, epSize := epSize))
  }

  function Switched(e: Ep, on: bool): Ep {
    e.(hw := e.hw.(enabled := on))
  }

  /** The abort callback of an endpoint that finds no room any more; it is called even for an idle job. */
  function NoRoom(e: Ep): Ep {
    match e.job.call
    case NoCall => e
    case Halt => e.(log := e.log.(misfired := e.log.misfired + 1))
    case Trans(cb) =>
      var d := Completion(e, true, false).(reported := e.job.cnt);
      React(e.(log := e.log.(done := e.log.done + [d])), cb)
  }

  /**
   When an endpoint finds no room, completions and waits still match what was accepted and registered
   exactly when it was busy with a callback or idle without one: the callback of an idle job is called
   a second time, and a running job without one is lost.
   */
  lemma NoRoomConserves(e: Ep)
    requires General(e)
    ensures Conserved(NoRoom(e.(job := e.job.(busy := false)))) <==> (e.job.busy <==> e.job.call != NoCall)
  {
    var f := e.(job := e.job.(busy := false));
    if e.job.call.Trans? {
      var d := Completion(f, true, false).(reported := f.job.cnt);
      var c, cb := f.(log := f.log.(done := f.log.done + [d])), e.job.call.cb;
      if cb.Resubmit? {
        RunFollows(c, cb.short, cb.buf, cb.size, cb.ended, CallOf(cb.next));
      }
      assert NoRoom(f) == React(c, cb);
    }
  }

  /** Endpoint `e` after it was enabled again and its job restarted. */
  predicate Reopened(e: Ep, ended: bool, partial: nat, now: Ep) {
    Restartable(e) && Restart(Switched(e, true), ended, partial) == (now, true)
  }

  /** Endpoint `e` where the reorganisation gave up: no room, or a job that was refused. */
  predicate GaveUp(e: Ep, mapped: bool, ended: bool, partial: nat, now: Ep) {
    var on := Switched(e, true);
    if !mapped then now == NoRoom(on.(job := on.job.(busy := false)))
    else Restartable(e) && Restart(on, ended, partial) == (now, false)
  }

  /** One turn of the first loop: the bank number is saved and the endpoint is off. */
  predicate TakenDown(e: Ep, b: nat, saved: nat, now: Ep, nowBank: nat) {
    && now == Switched(e, false)
    && (if e.hw.enabled then saved == b && nowBank == 0 else saved == 0 && nowBank == b)
  }

  /** One turn of the second loop. */
  predicate BroughtUp(e: Ep, b: nat, bank: nat, ended: bool, partial: nat, now: Ep, nowBank: nat) {
    if bank == 0 then now == e && nowBank == b
    else Reopened(e, ended, partial, now) && nowBank == bank
  }

  /** An endpoint behind the reorganisation: restarted if it was enabled, untouched if not. */
  predicate UpAgain(e: Ep, ended: bool, partial: nat, now: Ep) {
    if e.hw.enabled then Reopened(e, ended, partial, now) else now == e
  }

  /** Endpoint `k` behind a reorganisation that reached `reached`: up again, given up at, or still down. */
  predicate Passed(e: Ep, st: Status, k: nat, reached: nat, now: Ep) {
    if k < reached then UpAgain(e, st.ended, st.partial, now)
    else if k == reached then GaveUp(e, st.mapped, st.ended, st.partial, now)
    else now == Switched(e, false)
  }

  lemma SwitchedTwice(e: Ep)
    ensures Switched(Switched(e, false), true) == Switched(e, true)
    ensures !e.hw.enabled ==> Switched(e, false) == e
    ensures e.hw.enabled ==> Switched(e, true) == e
  {
  }

  // ----- what the reorganisation keeps -----

  /** The invariants of every run, whether or not the endpoint is on at the moment. */
  predicate Intact(e: Ep) {
    General(Switched(e, true)) && Laid(e)
  }

  lemma FreshIntact(e: Ep)
    ensures Fresh(e) ==> Intact(e)
  {
  }

  lemma IntactAnyway(e: Ep, on: bool, dirIn: bool, epSize: EpSize)
    ensures Intact(Switched(e, on)) == Intact(Configured(e, dirIn, epSize)) == Intact(e)
    ensures Restartable(Switched(e, on)) == Restartable(Configured(e, dirIn, epSize)) == Restartable(e)
  {
    assert Switched(Switched(e, on), true) == Switched(e, true);
    assert General(Switched(Configured(e, dirIn, epSize), true)) == General(Switched(e, true));
  }

  lemma ConfiguredAnyway(e: Ep, dirIn: bool, epSize: EpSize, on: bool)
    requires !e.hw.enabled
    ensures var r := Switched(Configured(e, dirIn, epSize), on);
            && Intact(r) == Intact(e) && Restartable(r) == Restartable(e)
            && r.hw.dirIn == dirIn && r.hw.epSize == epSize && (!on ==> r == Configured(e, dirIn, epSize))
  {
    IntactAnyway(e, on, dirIn, epSize);
    IntactAnyway(Configured(e, dirIn, epSize), on, dirIn, epSize);
  }

  /** What the job engine leaves busy can be rewound. */
  lemma FollowsRestartable(e: Ep, r: Ep)
    requires Follows(e, r) && Loaded(r) && e.job.cnt <= e.job.size && (Transferring(r) ==> r.log.accepted > 0)
    ensures Restartable(r)
  {
  }

  lemma ReopenedKeeps(e: Ep, ended: bool, partial: nat, now: Ep)
    requires Reopened(e, ended, partial, now)
    ensures now.hw.enabled && Restartable(now) && (Intact(e) ==> Intact(now))
  {
    var on := Switched(e, true);
    if on.job.busy {
      var a := Resubmitted(on, partial);
      TransDoneFollows(a, ended);
      TransDoneLoaded(a, ended);
      FollowsRestartable(a, now);
      if Intact(e) {
        RestartGeneral(on, ended, partial);
        SwitchedTwice(now);
      }
    }
  }

  /** The endpoint the reorganisation gives up at keeps its accounts: it has no room, and its callback was due. */
  predicate Survives(e: Ep, mapped: bool) {
    !mapped && (e.job.busy <==> e.job.call != NoCall)
  }

  /** The abort callback of an endpoint without room, and what it does. */
  lemma NoRoomReacts(e: Ep)
    requires !e.job.busy && e.job.call.Trans?
    ensures var d := Completion(e, true, false).(reported := e.job.cnt);
            var c, r := e.(log := e.log.(done := e.log.done + [d])), NoRoom(e);
            && Follows(c, r) && (r.job.busy ==> Active(r)) && Restartable(r)
            && (AllLaid(c.log.done) ==> Laid(r))
  {
    var d := Completion(e, true, false).(reported := e.job.cnt);
    var c, cb := e.(log := e.log.(done := e.log.done + [d])), e.job.call.cb;
    if cb.Resubmit? {
      RunFollows(c, cb.short, cb.buf, cb.size, cb.ended, CallOf(cb.next));
      RunLoaded(c, cb.short, cb.buf, cb.size, cb.ended, CallOf(cb.next));
      if AllLaid(c.log.done) {
        RunLaid(c, cb.short, cb.buf, cb.size, cb.ended, CallOf(cb.next));
      }
    }
  }

  /** The callback is told of an abort and of the bytes counted so far. */
  lemma NoRoomReports(e: Ep)
    requires e.job.call.Trans?
    ensures var ds, n := NoRoom(e.(job := e.job.(busy := false))).log.done, |e.log.done|;
            n < |ds| && ds[..n] == e.log.done && !ds[n].ok && ds[n].reported == e.job.cnt && !ds[n].zlp
  {
    NoRoomReacts(e.(job := e.job.(busy := false)));
  }

  lemma NoRoomRestartable(e: Ep)
    ensures Restartable(NoRoom(e.(job := e.job.(busy := false))))
  {
    if e.job.call.Trans? {
      NoRoomReacts(e.(job := e.job.(busy := false)));
    }
  }

  /** Only the accounts can suffer: the rest of the invariants holds after any abort callback. */
  lemma NoRoomRest(e: Ep)
    requires General(e) && Laid(e) && e.hw.enabled && e.job.call.Trans? && e.job.busy
    ensures Intact(NoRoom(e.(job := e.job.(busy := false))))
  {
    var f := e.(job := e.job.(busy := false));
    NoRoomReacts(f);
    NoRoomConserves(e);
    SwitchedTwice(NoRoom(f));
  }

  lemma UnbalancedLost(r: Ep)
    requires !Conserved(r)
    ensures !Intact(r)
  {
    assert Conserved(Switched(r, true)) == Conserved(r);
  }

  /** Without a callback to call, or with a wait registered. */
  lemma NoRoomOther(e: Ep)
    requires General(e) && Laid(e) && e.hw.enabled && !e.job.call.Trans? && (e.job.busy <==> e.job.call.Halt?)
    ensures Intact(NoRoom(e.(job := e.job.(busy := false))))
  {
  }

  lemma NoRoomIntact(e: Ep)
    requires General(e) && Laid(e) && e.hw.enabled
    ensures Intact(NoRoom(e.(job := e.job.(busy := false)))) <==> (e.job.busy <==> e.job.call != NoCall)
  {
    if e.job.busy <==> e.job.call != NoCall {
      if e.job.call.Trans? {
        NoRoomRest(e);
      } else {
        NoRoomOther(e);
      }
    } else {
      NoRoomConserves(e);
      UnbalancedLost(NoRoom(e.(job := e.job.(busy := false))));
    }
  }

  /** Its invariants are lost otherwise: a callback called twice, a job without one lost, or a wait dropped unreleased. */
  lemma GaveUpKeeps(e: Ep, mapped: bool, ended: bool, partial: nat, now: Ep)
    requires Restartable(e) && GaveUp(e, mapped, ended, partial, now)
    ensures Restartable(now) && (Intact(e) ==> (Intact(now) <==> Survives(e, mapped)))
  {
    if mapped {
      if Intact(e) {
        assert WaitBalance(now) == 1;
      }
    } else {
      NoRoomRestartable(Switched(e, true));
      if Intact(e) {
        NoRoomIntact(Switched(e, true));
      }
    }
  }

  /** Direction, size and type are those it was configured with. */
  lemma ReopenedFields(e: Ep, ended: bool, partial: nat, now: Ep)
    requires Reopened(e, ended, partial, now)
    ensures now.hw.enabled && now.hw.dirIn == e.hw.dirIn && now.hw.epSize == e.hw.epSize
  {
    var on := Switched(e, true);
    if on.job.busy {
      TransDoneFollows(Resubmitted(on, partial), ended);
    }
  }

  lemma GaveUpFields(e: Ep, mapped: bool, ended: bool, partial: nat, now: Ep)
    requires Restartable(e) && GaveUp(e, mapped, ended, partial, now)
    ensures now.hw.enabled && now.hw.dirIn == e.hw.dirIn && now.hw.epSize == e.hw.epSize
  {
    var f := Switched(e, true).(job := e.job.(busy := false));
    if !mapped && e.job.call.Trans? {
      NoRoomReacts(f);
    }
  }

  /** In a state of a clean run a window in flight, and the part of the job from it on, survive the reorganisation. */
  lemma ReopenedResumes(e: Ep, ended: bool, partial: nat, now: Ep)
    requires Sound(e) && e.hw.enabled && Reopened(e, ended, partial, now)
    requires Transferring(e) && e.hw.dma.Running? && (e.hw.dirIn || !ended)
    ensures now.job.busy && now.job.call == e.job.call && now.hw.dma == e.hw.dma
    ensures now.job.buf == e.job.buf + e.job.cnt - e.job.load && now.job.size == e.job.size - (e.job.cnt - e.job.load)
  {
    SwitchedTwice(e);
    RestartResumes(e, ended, partial);
  }

  /**
   An endpoint of a clean run that was brought up again makes right reports only, its own and all
   later ones, exactly when its restart was safe.
   */
  lemma ReopenedExact(e: Ep, ended: bool, partial: nat, now: Ep)
    requires Sound(e) && e.hw.enabled && Reopened(e, ended, partial, now)
    ensures Trustworthy(now) <==> RestartSafe(e, partial)
  {
    SwitchedTwice(e);
    if Transferring(e) {
      RestartExact(e, ended, partial);
    } else {
      SoundTrust(e);
    }
  }

  /** The reorganisation gives up at an endpoint exactly when it finds no room or holds a registered wait. */
  lemma GaveUpExact(e: Ep, mapped: bool, ended: bool, partial: nat)
    requires Restartable(e) && Intact(e) && e.hw.enabled
    ensures (exists now :: GaveUp(e, mapped, ended, partial, now)) <==> !mapped || (e.job.busy && e.job.call.Halt?)
  {
    SwitchedTwice(e);
    if !mapped {
      assert GaveUp(e, mapped, ended, partial, NoRoom(e.(job := e.job.(busy := false))));
    } else if e.job.busy && e.job.call.Halt? {
      assert GaveUp(e, mapped, ended, partial, Restart(e, ended, partial).0);
    }
  }

  lemma SaveBankAll(word: nat, i: nat, bank: nat, n: nat)
    requires LowClear(word, i + 1) && bank < 4 && i < n && word < Pow4(n)
    ensures LowClear(SaveBank(word, i, bank), i) && SaveBank(word, i, bank) < Pow4(n)
    ensures BankOf(SaveBank(word, i, bank), i) == bank
    ensures forall k :: k > i ==> BankOf(SaveBank(word, i, bank), k) == BankOf(word, k)
  {
    SaveBankReads(word, i, bank, i, n);
    forall k | k > i
      ensures BankOf(SaveBank(word, i, bank), k) == BankOf(word, k)
    {
      SaveBankReads(word, i, bank, k, n);
    }
  }

  lemma {:induction false} ClearWord(i: nat)
    ensures LowClear(0, i)
  {
    if i > 0 {
      ClearWord(i - 1);
    }
  }

  /**
   Endpoint 0 is the control endpoint; `banks` holds the bank number of each endpoint, and `broken`
   the endpoints that an earlier reorganisation gave up at with their accounts out of balance.
   */
  class Udphs {
    const eps: array<Ep>
    const banks: array<nat>
    ghost var broken: set<nat>

    ghost predicate Valid()
      reads this, eps, banks
    {
      && 1 <= eps.Length <= 8 && banks.Length == eps.Length
      && eps[0].hw.enabled
      && (forall i :: 0 <= i < eps.Length && eps[i].hw.enabled ==> 1 <= banks[i] <= 3)
      && (forall i :: 0 <= i < eps.Length ==> Restartable(eps[i]))
      && (forall i :: 0 <= i < eps.Length && i !in broken ==> Intact(eps[i]))
    }

    /** `control` is endpoint 0; the `n` others are not allocated yet. */
    constructor (control: Ep, idle: Ep, n: nat)
      requires n < 8 && control.hw.enabled && !control.job.busy && !idle.hw.enabled && !idle.job.busy
      ensures Valid() && fresh(eps) && fresh(banks) && eps.Length == n + 1
      ensures eps[0] == control && forall k :: 1 <= k <= n ==> eps[k] == idle && banks[k] == 0
      ensures Fresh(control) && Fresh(idle) ==> broken == {}
    {
      eps := new Ep[n + 1](i => if i == 0 then control else idle);
      banks := new nat[n + 1](i => if i == 0 then 1 else 0);
      FreshIntact(control);
      FreshIntact(idle);
      new;
      broken := set k | 0 <= k <= n && !Intact(eps[k]);
    }

    /** First loop: take down every enabled endpoint from the last one to `ep`, saving its bank number. */
    method TakeDown(ep: nat) returns (saved: nat)
      requires Valid() && 1 <= ep < eps.Length
      modifies eps, banks
      ensures forall k :: 0 <= k < ep ==> eps[k] == old(eps[k]) && banks[k] == old(banks[k])
      ensures forall k :: ep <= k < eps.Length ==>
                TakenDown(old(eps[k]), old(banks[k]), BankOf(saved, k), eps[k], banks[k])
      ensures saved < Pow4(eps.Length)
    {
      saved := 0;
      var i := eps.Length - 1;
      ClearWord(i + 1);
      while i >= ep
        invariant ep - 1 <= i < eps.Length
        invariant LowClear(saved, i + 1) && saved < Pow4(eps.Length)
        invariant forall k :: 0 <= k <= i ==> eps[k] == old(eps[k]) && banks[k] == old(banks[k])
        invariant forall k :: i < k < eps.Length ==>
                    TakenDown(old(eps[k]), old(banks[k]), BankOf(saved, k), eps[k], banks[k])
      {
        var bank := if eps[i].hw.enabled then banks[i] else 0;
        SaveBankAll(saved, i, bank, eps.Length);
        saved := SaveBank(saved, i, bank);
        if bank != 0 {
          eps[i] := Switched(eps[i], false);
          banks[i] := 0;
        }
        i := i - 1;
      }
    }

    /**
     Second loop: bring the saved endpoints up again from `ep` on and restart their jobs; `reached` is
     the endpoint it gave up at, if it did.
     */
    method BringUp(ep: nat, saved: nat, st: seq<Status>) returns (ok: bool, reached: nat)
      requires 1 <= ep < eps.Length == banks.Length == |st|
      requires forall k :: ep <= k < eps.Length ==> Restartable(eps[k])
      modifies eps, banks
      ensures ep <= reached <= eps.Length && ok == (reached == eps.Length)
      ensures forall k :: 0 <= k < eps.Length && (k < ep || reached < k) ==>
                eps[k] == old(eps[k]) && banks[k] == old(banks[k])
      ensures forall k :: ep <= k < reached ==>
                BroughtUp(old(eps[k]), old(banks[k]), BankOf(saved, k), st[k].ended, st[k].partial, eps[k], banks[k])
      ensures !ok ==>
                && banks[reached] == BankOf(saved, reached) != 0
                && GaveUp(old(eps[reached]), st[reached].mapped, st[reached].ended, st[reached].partial, eps[reached])
    {
      reached := ep;
      while reached < eps.Length
        invariant ep <= reached <= eps.Length
        invariant forall k :: 0 <= k < eps.Length && (k < ep || reached <= k) ==>
                    eps[k] == old(eps[k]) && banks[k] == old(banks[k])
        invariant forall k :: ep <= k < reached ==>
                    BroughtUp(old(eps[k]), old(banks[k]), BankOf(saved, k), st[k].ended, st[k].partial, eps[k], banks[k])
      {
        var bank := BankOf(saved, reached);
        if bank != 0 {
          var e := Switched(eps[reached], true);
          banks[reached] := bank;
          if !st[reached].mapped {
            eps[reached] := NoRoom(e.(job := e.job.(busy := false)));
            return false, reached;
          }
          var (r, accepted) := Restart(e, st[reached].ended, st[reached].partial);
          eps[reached] := r;
          if !accepted {
            return false, reached;
          }
        }
        reached := reached + 1;
      }
      return true, reached;
    }

    /**
     Both loops: the enabled endpoints from `ep` on are taken down and brought up with their bank
     number, up to the one where no room is left or a wait is registered; those behind stay down.
     */
    method Rebuild(ep: nat, st: seq<Status>) returns (ok: bool, reached: nat)
      requires Valid() && 1 <= ep < eps.Length == |st|
      modifies eps, banks
      ensures ep <= reached <= eps.Length && ok == (reached == eps.Length)
      ensures forall k :: 0 <= k < ep ==> eps[k] == old(eps[k]) && banks[k] == old(banks[k])
      ensures forall k :: ep <= k < reached ==>
                UpAgain(old(eps[k]), st[k].ended, st[k].partial, eps[k]) && banks[k] == old(banks[k])
      ensures forall k :: reached < k < eps.Length ==>
                eps[k] == Switched(old(eps[k]), false) && banks[k] == if old(eps[k].hw.enabled) then 0 else old(banks[k])
      ensures !ok ==>
                && old(eps[reached].hw.enabled) && banks[reached] == old(banks[reached])
                && GaveUp(old(eps[reached]), st[reached].mapped, st[reached].ended, st[reached].partial, eps[reached])
    {
      var saved := TakeDown(ep);
      ghost var down, downBanks := eps[..], banks[..];
      ok, reached := BringUp(ep, saved, st);
      forall k | ep <= k < eps.Length
        ensures k < reached ==> UpAgain(old(eps[k]), st[k].ended, st[k].partial, eps[k]) && banks[k] == old(banks[k])
        ensures k == reached ==> GaveUp(old(eps[k]), st[k].mapped, st[k].ended, st[k].partial, eps[k])
      {
        SwitchedTwice(old(eps[k]));
        assert TakenDown(old(eps[k]), old(banks[k]), BankOf(saved, k), down[k], downBanks[k]);
        if k < reached {
          assert BroughtUp(down[k], downBanks[k], BankOf(saved, k), st[k].ended, st[k].partial, eps[k], banks[k]);
        }
      }
    }

    /** One endpoint after the reorganisation. */
    lemma KeptAt(k: nat, ep: nat, reached: nat, st: seq<Status>, e: Ep)
      requires k < eps.Length == |st| && Restartable(e)
      requires k < ep ==> eps[k] == e
      requires ep <= k ==> Passed(e, st[k], k, reached, eps[k])
      ensures Restartable(eps[k])
      ensures eps[k].hw.dirIn == e.hw.dirIn && eps[k].hw.epSize == e.hw.epSize
      ensures k < reached ==> eps[k].hw.enabled == e.hw.enabled
      ensures ep <= k && reached < k ==> !eps[k].hw.enabled
      ensures Intact(e) && (k != reached || k < ep || Survives(e, st[k].mapped)) ==> Intact(eps[k])
    {
      IntactAnyway(e, false, e.hw.dirIn, e.hw.epSize);
      if ep <= k < reached && e.hw.enabled {
        ReopenedKeeps(e, st[k].ended, st[k].partial, eps[k]);
        ReopenedFields(e, st[k].ended, st[k].partial, eps[k]);
      } else if ep <= k == reached {
        GaveUpKeeps(e, st[k].mapped, st[k].ended, st[k].partial, eps[k]);
        GaveUpFields(e, st[k].mapped, st[k].ended, st[k].partial, eps[k]);
      }
    }

    /**
     The same with what it keeps: every endpoint but the one given up at keeps the invariants of all
     runs, and that one keeps them exactly when it survives.
     */
    method Reorganise(ep: nat, st: seq<Status>) returns (ok: bool, reached: nat)
      requires Valid() && 1 <= ep < eps.Length == |st|
      modifies eps, banks, this`broken
      ensures Valid()
      ensures ep <= reached <= eps.Length && ok == (reached == eps.Length)
      ensures forall k :: 0 <= k < ep ==> eps[k] == old(eps[k]) && banks[k] == old(banks[k])
      ensures forall k :: ep <= k < eps.Length ==>
                Passed(old(eps[k]), st[k], k, reached, eps[k]) && (k < reached ==> banks[k] == old(banks[k]))
      ensures broken == old(broken) +
                if ok || (reached !in old(broken) && Survives(old(eps[reached]), st[reached].mapped)) then {} else {reached}
      ensures forall k :: 0 <= k < eps.Length ==>
                && eps[k].hw.dirIn == old(eps[k].hw.dirIn) && eps[k].hw.epSize == old(eps[k].hw.epSize)
                && (k < reached ==> eps[k].hw.enabled == old(eps[k].hw.enabled))
                && (ep <= k && reached < k ==> !eps[k].hw.enabled)
    {
      ok, reached := Rebuild(ep, st);
      if !ok && (reached in broken || !Survives(old(eps[reached]), st[reached].mapped)) {
        broken := broken + {reached};
      }
      forall k | 0 <= k < eps.Length
        ensures Restartable(eps[k]) && (k !in broken ==> Intact(eps[k]))
        ensures eps[k].hw.enabled ==> 1 <= banks[k] <= 3
        ensures eps[k].hw.dirIn == old(eps[k].hw.dirIn) && eps[k].hw.epSize == old(eps[k].hw.epSize)
        ensures k < reached ==> eps[k].hw.enabled == old(eps[k].hw.enabled)
        ensures ep <= k && reached < k ==> !eps[k].hw.enabled
        ensures ep <= k ==> Passed(old(eps[k]), st[k], k, reached, eps[k])
      {
        assert ep <= k ==> Passed(old(eps[k]), st[k], k, reached, eps[k]);
        KeptAt(k, ep, reached, st, old(eps[k]));
      }
    }

    /** Configure a free endpoint, and enable it if it found room. */
    method Configure(ep: nat, dirIn: bool, epSize: EpSize, bank: nat, room: bool)
      requires Valid() && ep < eps.Length && !eps[ep].hw.enabled && 1 <= bank <= 3
      modifies eps, banks
      ensures Valid() && banks[ep] == bank
      ensures eps[ep] == Switched(Configured(old(eps[ep]), dirIn, epSize), room)
      ensures eps[ep].hw.dirIn == dirIn && eps[ep].hw.epSize == epSize && eps[ep].hw.enabled == room
      ensures forall k :: 0 <= k < eps.Length && k != ep ==> eps[k] == old(eps[k]) && banks[k] == old(banks[k])
    {
      ConfiguredAnyway(eps[ep], dirIn, epSize, room);
      var e := Configured(eps[ep], dirIn, epSize);
      if room {
        e := Switched(e, true);
      }
      eps[ep] := e;
      banks[ep] := bank;
    }

    /** A free endpoint that found room: configure and enable it, and reorganise those above it. */
    method Place(ep: nat, dirIn: bool, epSize: EpSize, bank: nat, st: seq<Status>) returns (ok: bool, reached: nat)
      requires Valid() && ep < eps.Length == |st| && !eps[ep].hw.enabled && 1 <= bank <= 3
      modifies eps, banks, this`broken
      ensures Valid()
      ensures forall k :: 0 <= k < ep ==> eps[k] == old(eps[k]) && banks[k] == old(banks[k])
      ensures ok == (reached == eps.Length) && ep <= reached <= eps.Length
      ensures Passed(Switched(Configured(old(eps[ep]), dirIn, epSize), true), st[ep], ep, reached, eps[ep])
      ensures ep < reached ==> banks[ep] == bank && eps[ep].hw.enabled
      ensures forall k :: ep < k < eps.Length ==>
                Passed(old(eps[k]), st[k], k, reached, eps[k]) && (k < reached ==> banks[k] == old(banks[k]))
      ensures broken == old(broken) +
                if ok || (reached !in old(broken) && Survives(old(eps[reached]), st[reached].mapped)) then {} else {reached}
      ensures eps[ep].hw.dirIn == dirIn && eps[ep].hw.epSize == epSize
      ensures forall k :: ep < k < eps.Length ==>
                && eps[k].hw.dirIn == old(eps[k].hw.dirIn) && eps[k].hw.epSize == old(eps[k].hw.epSize)
                && (k < reached ==> eps[k].hw.enabled == old(eps[k].hw.enabled))
                && (reached < k ==> !eps[k].hw.enabled)
    {
      Configure(ep, dirIn, epSize, bank, true);
      ok, reached := Reorganise(ep, st);
    }

    /**
     `udd_ep_alloc` for endpoint `ep` with `bank` banks: refused without any effect if `ep` is out of
     range or in use. Otherwise it gets the direction and size asked for, and those above it keep
     theirs. It can be called again whatever became of it.
     */
    method Alloc(ep: nat, dirIn: bool, epSize: EpSize, bank: nat, room: bool, st: seq<Status>)
      returns (ok: bool, reached: nat)
      requires Valid() && 1 <= bank <= 3 && |st| == eps.Length
      modifies eps, banks, this`broken
      ensures Valid()
      ensures forall k :: 0 <= k < ep && k < eps.Length ==> eps[k] == old(eps[k]) && banks[k] == old(banks[k])
      ensures ep >= eps.Length || old(eps[ep].hw.enabled) ==>
                && !ok && broken == old(broken)
                && forall k :: 0 <= k < eps.Length ==> eps[k] == old(eps[k]) && banks[k] == old(banks[k])
      ensures ep < eps.Length && !old(eps[ep].hw.enabled) && !room ==>
                && !ok && eps[ep] == Configured(old(eps[ep]), dirIn, epSize) && broken == old(broken)
                && forall k :: ep < k < eps.Length ==> eps[k] == old(eps[k]) && banks[k] == old(banks[k])
      ensures ep < eps.Length && !old(eps[ep].hw.enabled) && room ==>
                && ep <= reached <= eps.Length && ok == (reached == eps.Length)
                && Passed(Switched(Configured(old(eps[ep]), dirIn, epSize), true), st[ep], ep, reached, eps[ep])
                && (forall k :: ep < k < eps.Length ==>
                      && Passed(old(eps[k]), st[k], k, reached, eps[k])
                      && (k < reached ==> banks[k] == old(banks[k]) && eps[k].hw.enabled == old(eps[k].hw.enabled))
                      && (k > reached ==> !eps[k].hw.enabled))
                && broken == old(broken) +
                     (if ok || (reached !in old(broken) && Survives(old(eps[reached]), st[reached].mapped)) then {} else {reached})
      ensures ep < eps.Length && !old(eps[ep].hw.enabled) ==>
                && eps[ep].hw.dirIn == dirIn && eps[ep].hw.epSize == epSize
                && (room && ep < reached ==> eps[ep].hw.enabled && banks[ep] == bank)
      ensures forall k :: 0 <= k < eps.Length && k != ep ==>
                eps[k].hw.dirIn == old(eps[k].hw.dirIn) && eps[k].hw.epSize == old(eps[k].hw.epSize)
    {
      if ep >= eps.Length || eps[ep].hw.enabled {
        return false, ep;
      }
      if !room {
        Configure(ep, dirIn, epSize, bank, false);
        return false, ep;
      }
      ok, reached := Place(ep, dirIn, epSize, bank, st);
    }
  }
}
