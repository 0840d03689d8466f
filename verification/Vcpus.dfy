/** The vCPU threads of one VM, the barrier that parks them for a plugin's pause,
    and the stop that ends them, as interleaved atomic steps.

    Any number of vCPU threads run the loop of `run_vcpu`. The boot vCPU, vCPU 0,
    may call `pause` and `resume` from its safe point, and the thread that owns
    the run may call `stop`, any number of times each. A step is one access to a
    shared atomic, one lock operation, or one lock-held section that touches
    nothing another thread can reach without the lock.

    `KVM_RUN` is abstract: a vCPU whose `immediate_exit` byte is set does not get
    into the guest, and a signal taken inside the run ends it. A condition
    variable may wake a waiter at any time. */
module Vcpus {
  import opened Base

  /** Where a vCPU thread is. */
  datatype Pc =
    | Spawned                   // not in the kick table yet
    | Registered                // in the table, not started
    | Top                       // about to clear its byte
    | ReadFlag                  // about to read the running flag
    | Check                     // about to read the request flag, with no lock
    | ParkLock                  // saw a request, about to take the barrier's lock
    | Test                      // counted, holds the lock, about to read the request
    | Commit                    // read a request, holds the lock, about to wait
    | Waiting(notified: bool)   // waits on the condition variable
    | Relock                    // woken, about to take the lock again
    | Safe                      // past the checkpoint; the plugin runs here
    | Enter                     // about to call KVM_RUN
    | Guest                     // executes guest code
    | Leaving                   // loop over, about to leave the table
    | Gone

  /** Where the boot vCPU is inside `pause` and `resume`. */
  datatype PausePc =
    | PIdle
    | PRequest                      // about to raise the request
    | PTable                        // about to lock the kick table
    | PKick(next: nat, half: bool)  // `half`: byte of `next` stored, signal owed
    | PLock                         // about to take the barrier's lock
    | PLoadRunning                  // holds the lock, about to read the running flag
    | PLoadStarted                  // holds the lock, about to read the target
    | PWaiting(woken: bool)
    | PDecide(parkedAll: bool)      // wait over, about to read the running flag again
    | PHeld                         // `pause` returned true
    | PStore                        // about to clear the request
    | PNotify                       // cleared it, about to lock and notify

  /** Where the thread that owns the run is inside `stop`. */
  datatype StopPc =
    | SIdle
    | STable
    | SKick(at: nat, mid: bool)
    | SStore
    | SNotify

  datatype Holder = ByVcpu(cpu: nat) | ByPauser | ByStopper

  datatype Vcpu = Vcpu(pc: Pc, listed: bool, byte: bool, sig: bool)

  /** The last seven fields are history: `barrier` the vCPUs `parked` counts,
      `begun` those `started` counts, `round` whether a stop has finished its
      kicks, `granted` the vCPUs that had started when the last successful
      wait of a pause ended, `held` and `timedOut` whether the last pause was held and
      whether its wait timed out, and `quit` the vCPUs whose run ended the VM. */
  datatype Sys = Sys(
    vs: seq<Vcpu>,
    running: bool,
    requested: bool,
    parked: nat,
    started: nat,
    lock: Option<Holder>,
    table: Option<Holder>,
    ppc: PausePc,
    spc: StopPc,
    barrier: set<nat>,
    begun: set<nat>,
    round: bool,
    granted: set<nat>,
    held: bool,
    timedOut: bool,
    quit: set<nat>)

  // ---------------------------------------------------------------- steps

  predicate Init(s: Sys) {
    && |s.vs| > 0
    && (forall i :: 0 <= i < |s.vs| ==> s.vs[i] == Vcpu(Spawned, false, false, false))
    && s == Sys(s.vs, true, false, 0, 0, None, None, PIdle, SIdle, {}, {}, false, {}, false, false, {})
  }

  function Go(s: Sys, i: nat, pc: Pc): Sys
    requires i < |s.vs|
  {
    s.(vs := s.vs[i := s.vs[i].(pc := pc)])
  }

  function Woken(v: Vcpu): Vcpu {
    if v.pc.Waiting? then v.(pc := Waiting(true)) else v
  }

  /** `notify_all` on the barrier's condition variable. */
  function NotifyAll(s: Sys): Sys {
    s.(vs := seq(|s.vs|, j requires 0 <= j < |s.vs| => Woken(s.vs[j])),
       ppc := if s.ppc.PWaiting? then PWaiting(true) else s.ppc)
  }

  predicate At(s: Sys, i: nat, pc: Pc) {
    i < |s.vs| && s.vs[i].pc == pc
  }

  // The vCPU thread: registration, then the passes of its loop.

  predicate Register(s: Sys, s': Sys, i: nat) {
    && At(s, i, Spawned) && s.table.None?
    && s' == s.(vs := s.vs[i := s.vs[i].(pc := Registered, listed := true)])
  }

  predicate MarkStarted(s: Sys, s': Sys, i: nat) {
    At(s, i, Registered) && s' == Go(s, i, Top).(started := s.started + 1, begun := s.begun + {i})
  }

  predicate ClearByte(s: Sys, s': Sys, i: nat) {
    At(s, i, Top) && s' == s.(vs := s.vs[i := s.vs[i].(pc := ReadFlag, byte := false)])
  }

  predicate ReadRunning(s: Sys, s': Sys, i: nat) {
    At(s, i, ReadFlag) && s' == Go(s, i, if s.running then Check else Leaving)
  }

  predicate ReadRequest(s: Sys, s': Sys, i: nat) {
    At(s, i, Check) && s' == Go(s, i, if s.requested then ParkLock else Safe)
  }

  predicate Park(s: Sys, s': Sys, i: nat) {
    && At(s, i, ParkLock) && s.lock.None?
    && s' == NotifyAll(Go(s, i, Test).(lock := Some(ByVcpu(i)), parked := s.parked + 1,
                                      barrier := s.barrier + {i}))
  }

  predicate TestRequest(s: Sys, s': Sys, i: nat) {
    && At(s, i, Test)
    && s' == if s.requested then Go(s, i, Commit)
             else Go(s, i, Safe).(lock := None, parked := if s.parked > 0 then s.parked - 1 else 0,
                                  barrier := s.barrier - {i})
  }

  predicate BeginWait(s: Sys, s': Sys, i: nat) {
    At(s, i, Commit) && s' == Go(s, i, Waiting(false)).(lock := None)
  }

  predicate WakeUp(s: Sys, s': Sys, i: nat) {
    i < |s.vs| && s.vs[i].pc.Waiting? && s' == Go(s, i, Relock)
  }

  predicate TakeLockAgain(s: Sys, s': Sys, i: nat) {
    At(s, i, Relock) && s.lock.None? && s' == Go(s, i, Test).(lock := Some(ByVcpu(i)))
  }

  /** The plugin hook returns; it has resumed every pause it was granted. */
  predicate LeaveSafe(s: Sys, s': Sys, i: nat) {
    At(s, i, Safe) && (i == 0 ==> s.ppc.PIdle?) && s' == Go(s, i, Enter)
  }

  predicate EnterGuest(s: Sys, s': Sys, i: nat) {
    && At(s, i, Enter) && !s.vs[i].byte
    && s' == s.(vs := s.vs[i := s.vs[i].(pc := Guest, sig := false)])
  }

  /** The byte ends the run before the guest executes. */
  predicate BounceOff(s: Sys, s': Sys, i: nat) {
    && At(s, i, Enter) && s.vs[i].byte
    && (s' == Go(s, i, Top) || s' == Go(s, i, Leaving).(quit := s.quit + {i}))
  }

  /** An exit of the guest's own, or the signal. */
  predicate ExitGuest(s: Sys, s': Sys, i: nat) {
    && At(s, i, Guest)
    && (s' == s.(vs := s.vs[i := s.vs[i].(pc := Top, sig := false)])
        || s' == s.(vs := s.vs[i := s.vs[i].(pc := Leaving, sig := false)], quit := s.quit + {i}))
  }

  predicate Deregister(s: Sys, s': Sys, i: nat) {
    && At(s, i, Leaving) && s.table.None?
    && s' == s.(vs := s.vs[i := s.vs[i].(pc := Gone, listed := false)])
  }

  predicate VcpuStep(s: Sys, s': Sys, i: nat) {
    || Register(s, s', i) || MarkStarted(s, s', i) || ClearByte(s, s', i)
    || ReadRunning(s, s', i) || ReadRequest(s, s', i) || Park(s, s', i)
    || TestRequest(s, s', i) || BeginWait(s, s', i) || WakeUp(s, s', i)
    || TakeLockAgain(s, s', i) || LeaveSafe(s, s', i) || EnterGuest(s, s', i)
    || BounceOff(s, s', i) || ExitGuest(s, s', i) || Deregister(s, s', i)
  }

  // A kick of one vCPU: the byte, then the signal, which a thread outside the
  // run consumes in its handler.

  function StoreByte(s: Sys, i: nat): Sys
    requires i < |s.vs|
  {
    if s.vs[i].listed then s.(vs := s.vs[i := s.vs[i].(byte := true)]) else s
  }

  function Signal(s: Sys, i: nat): Sys
    requires i < |s.vs|
  {
    if s.vs[i].listed && s.vs[i].pc.Guest? then s.(vs := s.vs[i := s.vs[i].(sig := true)]) else s
  }

  /** Half a kick from any other thread, such as a plugin's `VmHandle::kick`. */
  predicate StrayKick(s: Sys, s': Sys, i: nat) {
    i < |s.vs| && (s' == StoreByte(s, i) || s' == Signal(s, i))
  }

  // The boot vCPU's pause and resume.

  predicate PauseCall(s: Sys, s': Sys) {
    && At(s, 0, Safe) && (s.ppc.PIdle? || s.ppc.PHeld?)
    && s' == s.(ppc := PRequest, held := false, timedOut := false)
  }

  predicate RaiseRequest(s: Sys, s': Sys) {
    s.ppc.PRequest? && s' == s.(ppc := PTable, requested := true)
  }

  predicate PauseTable(s: Sys, s': Sys) {
    s.ppc.PTable? && s.table.None? && s' == s.(ppc := PKick(0, false), table := Some(ByPauser))
  }

  predicate PauseKick(s: Sys, s': Sys) {
    && s.ppc.PKick?
    && var k := s.ppc.next;
       if k >= |s.vs| then
         s' == s.(ppc := PLock, table := None)
       else if k == 0 then                 // its own thread
         s' == s.(ppc := PKick(1, false))
       else if !s.ppc.half then
         s' == StoreByte(s, k).(ppc := PKick(k, true))
       else
         s' == Signal(s, k).(ppc := PKick(k + 1, false))
  }

  predicate PauseLock(s: Sys, s': Sys) {
    && (s.ppc.PLock? || s.ppc.PWaiting?) && s.lock.None?
    && s' == s.(ppc := PLoadRunning, lock := Some(ByPauser))
  }

  predicate LoadRunning(s: Sys, s': Sys) {
    && s.ppc.PLoadRunning?
    && s' == if s.running then s.(ppc := PLoadStarted) else s.(ppc := PDecide(true), lock := None)
  }

  function Target(s: Sys): nat {
    if s.started == 0 then 0 else s.started - 1
  }

  predicate LoadStarted(s: Sys, s': Sys) {
    && s.ppc.PLoadStarted?
    && if s.parked >= Target(s) then
         s' == s.(ppc := PDecide(true), lock := None, granted := s.begun)
       else
         || s' == s.(ppc := PWaiting(false), lock := None)
         || s' == s.(ppc := PDecide(false), lock := None, timedOut := true)
  }

  predicate Decide(s: Sys, s': Sys) {
    && s.ppc.PDecide?
    && s' == if s.ppc.parkedAll && s.running then s.(ppc := PHeld, held := true) else s.(ppc := PStore)
  }

  predicate Resume(s: Sys, s': Sys) {
    s.ppc.PHeld? && s' == s.(ppc := PStore)
  }

  predicate PauseClear(s: Sys, s': Sys) {
    s.ppc.PStore? && s' == s.(ppc := PNotify, requested := false)
  }

  predicate PauseNotify(s: Sys, s': Sys) {
    s.ppc.PNotify? && s.lock.None? && s' == NotifyAll(s).(ppc := PIdle)
  }

  predicate PauserStep(s: Sys, s': Sys) {
    || PauseCall(s, s') || RaiseRequest(s, s') || PauseTable(s, s') || PauseKick(s, s')
    || PauseLock(s, s') || LoadRunning(s, s') || LoadStarted(s, s') || Decide(s, s')
    || Resume(s, s') || PauseClear(s, s') || PauseNotify(s, s')
  }

  // The stop.

  predicate StopCall(s: Sys, s': Sys) {
    && s.spc.SIdle?
    && s' == s.(running := false, spc := if s.running then STable else SStore)
  }

  predicate StopTable(s: Sys, s': Sys) {
    s.spc.STable? && s.table.None? && s' == s.(spc := SKick(0, false), table := Some(ByStopper))
  }

  predicate StopKick(s: Sys, s': Sys) {
    && s.spc.SKick?
    && var k := s.spc.at;
       if k >= |s.vs| then
         s' == s.(spc := SStore, table := None, round := true)
       else if !s.spc.mid then
         s' == StoreByte(s, k).(spc := SKick(k, true))
       else
         s' == Signal(s, k).(spc := SKick(k + 1, false))
  }

  predicate StopClear(s: Sys, s': Sys) {
    s.spc.SStore? && s' == s.(spc := SNotify, requested := false)
  }

  predicate StopNotify(s: Sys, s': Sys) {
    s.spc.SNotify? && s.lock.None? && s' == NotifyAll(s).(spc := SIdle)
  }

  predicate StopperStep(s: Sys, s': Sys) {
    StopCall(s, s') || StopTable(s, s') || StopKick(s, s') || StopClear(s, s') || StopNotify(s, s')
  }

  ghost predicate Step(s: Sys, s': Sys) {
    || (exists i: nat :: VcpuStep(s, s', i))
    || (exists i: nat :: StrayKick(s, s', i))
    || PauserStep(s, s')
    || StopperStep(s, s')
  }

  ghost predicate Run(trace: seq<Sys>) {
    && |trace| > 0 && Init(trace[0])
    && forall k :: 0 <= k < |trace| - 1 ==> Step(trace[k], trace[k + 1])
  }

  // ---------------------------------------------------------------- invariant

  predicate InBarrier(pc: Pc) { pc.Test? || pc.Commit? || pc.Waiting? || pc.Relock? }

  predicate HasStarted(pc: Pc) { !pc.Spawned? && !pc.Registered? }

  /** Past its checkpoint, on its way into the guest or in it. */
  predicate Loose(pc: Pc) { pc.Safe? || pc.Enter? || pc.Guest? }

  /** Has read a set running flag in this pass and not been in the guest yet. */
  predicate PastFlag(pc: Pc) {
    pc.Check? || pc.ParkLock? || InBarrier(pc) || pc.Safe? || pc.Enter?
  }

  /** In the guest, with no signal on its way to end the run. */
  predicate Executes(v: Vcpu) { v.pc.Guest? && !v.sig }

  /** A stop's kick has reached this vCPU, or need not. */
  predicate Kicked(v: Vcpu) { (PastFlag(v.pc) ==> v.byte) && (v.pc.Guest? ==> v.sig) }

  /** From the raise of the request to the start of its release. */
  predicate InPause(p: PausePc) {
    || p.PTable? || p.PKick? || p.PLock? || p.PLoadRunning? || p.PLoadStarted?
    || p.PWaiting? || p.PDecide? || p.PHeld?
  }

  /** The facts about the counters, the locks and the threads' places. The request
      is up only inside a pause that is still to clear it, and within a pause only
      a stop that has finished its kicks clears it early. A requester asleep with
      no notify sent still has vCPUs to wait for, or the stop will notify it. */
  predicate SharedInv(s: Sys) {
    && ((s.ppc.PLoadRunning? || s.ppc.PLoadStarted?) <==> s.lock == Some(ByPauser))
    && (s.ppc.PKick? <==> s.table == Some(ByPauser))
    && (s.spc.SKick? <==> s.table == Some(ByStopper))
    && s.parked == |s.barrier| && s.started == |s.begun| && s.barrier <= s.begun
    && |s.vs| > 0 && (forall i :: i in s.begun ==> i < |s.vs|)
    && (!s.ppc.PIdle? ==> s.vs[0].pc.Safe?)
    && (s.requested ==> !s.ppc.PIdle? && !s.ppc.PNotify?)
    && (InPause(s.ppc) ==> s.requested || s.round)
    && (!s.running <==> s.round || s.spc.STable? || s.spc.SKick?)
    && (s.spc.SStore? || s.spc.SNotify? ==> s.round)
    && (s.round ==> !s.spc.STable? && !s.spc.SKick?)
    && (s.spc.SKick? && s.spc.mid ==> s.spc.at < |s.vs|)
    && (s.ppc == PWaiting(false) ==> if s.running then s.parked < Target(s) else !s.spc.SIdle?)
    && (s.ppc.PLoadStarted? && !s.running ==> !s.spc.SIdle?)
    && (s.round && s.ppc.PHeld? && s.requested ==> s.spc.SStore?)
    && (s.ppc.PHeld? ==> s.held) && (s.ppc == PDecide(false) ==> s.timedOut)
    && (s.ppc.PStore? ==> s.held || s.timedOut || !s.running)
  }

  /** A pause holds, and no stop has released it. */
  predicate Holds(s: Sys) {
    (s.ppc == PDecide(true) && s.running) || (s.ppc.PHeld? && s.requested)
  }

  /** The request is up and the pauser's kick of vCPU `i` is done. */
  predicate Summons(s: Sys, i: nat) {
    && i > 0 && s.requested
    && (|| s.ppc.PLock? || s.ppc.PLoadRunning? || s.ppc.PLoadStarted? || s.ppc.PWaiting?
        || s.ppc.PDecide? || s.ppc.PHeld? || (s.ppc.PKick? && i < s.ppc.next))
  }

  /** A pauser's kick has reached this vCPU, or need not: it will read the request. */
  predicate Called(v: Vcpu) { (v.pc.Safe? || v.pc.Enter? ==> v.byte) && (v.pc.Guest? ==> v.sig) }

  /** What holds of vCPU `i`: who has the barrier's lock, what a stop's and a pause's
      kicks have done to it, where it may be while a pause holds, and that a wait of
      its own has a notify coming once the request is cleared. */
  predicate VcpuInv(s: Sys, i: nat, v: Vcpu) {
    && ((v.pc.Test? || v.pc.Commit?) <==> s.lock == Some(ByVcpu(i)))
    && (v.listed <==> !v.pc.Spawned? && !v.pc.Gone?)
    && (i in s.barrier <==> InBarrier(v.pc)) && (i in s.begun <==> HasStarted(v.pc))
    && (i == 0 ==> !v.pc.ParkLock? && !InBarrier(v.pc))
    && (s.round || (s.spc.SKick? && i < s.spc.at) ==> Kicked(v))
    && (s.spc.SKick? && s.spc.mid && i == s.spc.at && PastFlag(v.pc) ==> v.byte)
    && (Holds(s) && i > 0 ==> !Loose(v.pc) && (i in s.granted ==> InBarrier(v.pc)))
    && (s.ppc.PHeld? && i > 0 ==> !v.pc.Guest?)
    && (Summons(s, i) ==> Called(v))
    && (v.pc.Leaving? || v.pc.Gone? ==> !s.running || i in s.quit)
    && (s.requested && s.ppc.PKick? && s.ppc.half && i == s.ppc.next > 0 && (v.pc.Safe? || v.pc.Enter?) ==> v.byte)
    && (v.pc == Waiting(false) || v.pc.Commit? ==> s.requested || s.ppc.PNotify? || s.spc.SNotify?)
  }

  predicate Inv(s: Sys) {
    && SharedInv(s)
    && (Holds(s) ==> s.requested)
    && forall i: nat | i < |s.vs| :: VcpuInv(s, i, s.vs[i])
  }

  // ---------------------------------------------------------------- proofs

  lemma InitInv(s: Sys)
    requires Init(s)
    ensures Inv(s)
  {
  }

  /** Steps left before a vCPU that a stop has kicked is gone, once no pause is in
      effect. */
  function Left(pc: Pc): nat {
    match pc
    case Spawned => 6
    case Registered => 5
    case Check => 14
    case ParkLock => 13
    case Commit => 12
    case Waiting(_) => 11
    case Relock => 10
    case Test => 9
    case Safe => 8
    case Enter => 7
    case Guest => 5
    case Top => 4
    case ReadFlag => 3
    case Leaving => 2
    case Gone => 0
  }

  /** Steps left before a vCPU that a pause has kicked is in the barrier or gone. */
  function Away(pc: Pc): nat {
    match pc
    case Safe => 8
    case Enter => 7
    case Spawned => 7
    case Registered => 6
    case Guest => 6
    case Top => 5
    case ReadFlag => 4
    case Check => 3
    case ParkLock => 2
    case Leaving => 1
    case _ => 0
  }

  /** Steps left before a vCPU that nothing holds up is in the guest. */
  function Outside(pc: Pc): nat {
    match pc
    case ParkLock => 10
    case Commit => 9
    case Waiting(_) => 8
    case Relock => 7
    case Spawned => 7
    case Registered => 6
    case Test => 6
    case Top => 5
    case ReadFlag => 4
    case Check => 3
    case Safe => 2
    case Enter => 1
    case _ => 0
  }

  /** The VM runs, no pause is asked for, and no kick is pending at the entry. */
  predicate IsFree(s: Sys, v: Vcpu) {
    && s.running && !s.requested && !(v.pc.Enter? && v.byte)
    && !v.pc.Guest? && !v.pc.Leaving? && !v.pc.Gone?
  }

  /** A vCPU other than the boot vCPU has started and is not parked. */
  ghost predicate SomeoneOut(s: Sys) {
    exists i: nat | 0 < i < |s.vs| :: HasStarted(s.vs[i].pc) && !InBarrier(s.vs[i].pc)
  }

  /** Vcpu `v'` is in the guest only if it was as `v`. */
  predicate DoesNotEnter(v: Vcpu, v': Vcpu) { v'.pc.Guest? ==> v.pc.Guest? }

  /** The invariant, and a finished round of kicks stays finished, with no entry into
      the guest after it. A wait times out only while it waits for someone. */
  ghost predicate Kept(s: Sys, s': Sys) {
    && Inv(s') && |s'.vs| == |s.vs|
    && (s'.timedOut && !s.timedOut ==> SomeoneOut(s))
    && (s.round ==> s'.round && forall i: nat | i < |s.vs| :: DoesNotEnter(s.vs[i], s'.vs[i]))
  }

  /** A step of vCPU `i` brings it closer to its exit after a stop's kicks, closer to the
      barrier, which it then does not leave, after a pause's, out of the barrier once no
      pause is asked for, and closer to the guest when nothing holds it up. */
  predicate Closer(s: Sys, s': Sys, i: nat) {
    && i < |s.vs| && i < |s'.vs|
    && (!s.requested && (s.round || InBarrier(s.vs[i].pc)) ==> Left(s'.vs[i].pc) < Left(s.vs[i].pc) <= 14)
    && (!s.requested && InBarrier(s.vs[i].pc) ==> InBarrier(s'.vs[i].pc) || s'.vs[i].pc.Safe?)
    && (IsFree(s, s.vs[i]) ==> Outside(s'.vs[i].pc) < Outside(s.vs[i].pc) <= 10)
    && (Summons(s, i) ==>
          InBarrier(s'.vs[i].pc) || (!InBarrier(s.vs[i].pc) && Away(s'.vs[i].pc) < Away(s.vs[i].pc) <= 8))
  }

  // What each step keeps.

  /** What the invariant says of one vCPU, and of the boot vCPU's place. */
  lemma InvAt(s: Sys, i: nat)
    requires Inv(s) && i < |s.vs|
    ensures SharedInv(s) && VcpuInv(s, i, s.vs[i])
  {}

  function Set(s: Sys, i: nat, v: Vcpu): Sys
    requires i < |s.vs|
  {
    s.(vs := s.vs[i := v])
  }

  /** What the invariant says of a vCPU does not depend on the others. */
  lemma VcpuInvIsLocal(s: Sys, i: nat, v: Vcpu, j: nat, w: Vcpu)
    requires i < |s.vs|
    ensures VcpuInv(Set(s, i, v), j, w) <==> VcpuInv(s, j, w)
  {}

  lemma SharedInvIsLocal(s: Sys, i: nat, v: Vcpu)
    requires SharedInv(s) && i < |s.vs| && (i == 0 && !s.ppc.PIdle? ==> v.pc.Safe?)
    ensures SharedInv(Set(s, i, v)) && (Holds(Set(s, i, v)) <==> Holds(s))
  {}

  /** A step that changes one vCPU alone has only that one to answer for. */
  lemma OneVcpuChanges(s: Sys, i: nat, v: Vcpu)
    requires Inv(s) && i < |s.vs| && VcpuInv(s, i, v)
    requires i == 0 && !s.ppc.PIdle? ==> v.pc.Safe?
    ensures Inv(Set(s, i, v))
  {
    hide SharedInv, VcpuInv, Holds;
    SharedInvIsLocal(s, i, v);
    forall j: nat | j < |s.vs| ensures VcpuInv(Set(s, i, v), j, Set(s, i, v).vs[j]) {
      VcpuInvIsLocal(s, i, v, j, Set(s, i, v).vs[j]);
    }
  }

  /** The vCPUs whose run ended the VM only become more. */
  lemma QuitGrows(s: Sys, i: nat)
    requires Inv(s)
    ensures Inv(s.(quit := s.quit + {i}))
  {
    var s' := s.(quit := s.quit + {i});
    forall j: nat | j < |s'.vs| ensures VcpuInv(s', j, s'.vs[j]) {
      InvAt(s, j);
    }
  }

  lemma AllKeptIsInv(s: Sys)
    requires SharedInv(s) && (Holds(s) ==> s.requested)
    requires forall i: nat | i < |s.vs| :: VcpuInv(s, i, s.vs[i])
    ensures Inv(s)
  {}

  lemma RegisterKeeps(s: Sys, s': Sys, i: nat)
    requires Inv(s) && Register(s, s', i)
    ensures Kept(s, s') && Closer(s, s', i)
  {
    hide Inv;
    InvAt(s, i);
    OneVcpuChanges(s, i, s.vs[i].(pc := Registered, listed := true));
  }

  function Begun(s: Sys, i: nat): Sys
    requires i < |s.vs|
  {
    Go(s, i, Top).(started := s.started + 1, begun := s.begun + {i})
  }

  lemma BegunKeepsShared(s: Sys, i: nat)
    requires Inv(s) && At(s, i, Registered)
    ensures SharedInv(Begun(s, i)) && (Holds(Begun(s, i)) ==> s.requested)
  {
    assert VcpuInv(s, i, s.vs[i]) && i !in s.begun;
  }

  lemma BegunKeepsVcpu(s: Sys, i: nat, j: nat)
    requires Inv(s) && At(s, i, Registered) && j < |s.vs|
    ensures VcpuInv(Begun(s, i), j, Begun(s, i).vs[j])
  {
    assert VcpuInv(s, j, s.vs[j]);
  }

  lemma MarkStartedKeeps(s: Sys, s': Sys, i: nat)
    requires Inv(s) && MarkStarted(s, s', i)
    ensures Kept(s, s') && Closer(s, s', i)
  {
    hide Inv, VcpuInv, SharedInv, Holds;
    BegunKeepsShared(s, i);
    forall j: nat | j < |s'.vs| ensures VcpuInv(s', j, s'.vs[j]) { BegunKeepsVcpu(s, i, j); }
    AllKeptIsInv(s');
  }

  lemma ClearByteKeeps(s: Sys, s': Sys, i: nat)
    requires Inv(s) && ClearByte(s, s', i)
    ensures Kept(s, s') && Closer(s, s', i)
  {
    hide Inv;
    InvAt(s, i);
    OneVcpuChanges(s, i, s.vs[i].(pc := ReadFlag, byte := false));
  }

  lemma ReadRunningKeeps(s: Sys, s': Sys, i: nat)
    requires Inv(s) && ReadRunning(s, s', i)
    ensures Kept(s, s') && Closer(s, s', i)
  {
    hide Inv;
    InvAt(s, i);
    OneVcpuChanges(s, i, s.vs[i].(pc := if s.running then Check else Leaving));
  }

  lemma ReadRequestKeeps(s: Sys, s': Sys, i: nat)
    requires Inv(s) && ReadRequest(s, s', i)
    ensures Kept(s, s') && Closer(s, s', i)
  {
    hide Inv;
    InvAt(s, i);
    OneVcpuChanges(s, i, s.vs[i].(pc := if s.requested then ParkLock else Safe));
  }

  lemma ParkKeepsShared(s: Sys, s': Sys, i: nat)
    requires Inv(s) && Park(s, s', i)
    ensures SharedInv(s') && (Holds(s') ==> s'.requested)
  {
    assert i !in s.barrier;
  }

  lemma ParkKeepsVcpu(s: Sys, s': Sys, i: nat, j: nat)
    requires Inv(s) && Park(s, s', i) && j < |s'.vs|
    ensures VcpuInv(s', j, s'.vs[j]) && DoesNotEnter(s.vs[j], s'.vs[j])
  {
    assert VcpuInv(s, j, s.vs[j]);
  }

  lemma ParkKeeps(s: Sys, s': Sys, i: nat)
    requires Inv(s) && Park(s, s', i)
    ensures Kept(s, s') && Closer(s, s', i)
  {
    ParkKeepsShared(s, s', i);
    forall j: nat | j < |s'.vs| ensures VcpuInv(s', j, s'.vs[j]) && DoesNotEnter(s.vs[j], s'.vs[j]) {
      ParkKeepsVcpu(s, s', i, j);
    }
    hide Inv, VcpuInv, SharedInv, Holds;
    assert Inv(s') by { AllKeptIsInv(s'); }
  }

  lemma StaysParked(s: Sys, i: nat)
    requires Inv(s) && At(s, i, Test) && s.requested
    ensures Inv(Go(s, i, Commit))
  {}

  lemma LeavesBarrier(s: Sys, i: nat)
    requires Inv(s) && At(s, i, Test) && !s.requested
    ensures s.parked > 0
    ensures Inv(Go(s, i, Safe).(lock := None, parked := s.parked - 1, barrier := s.barrier - {i}))
  {
    assert i in s.barrier;
  }

  lemma TestRequestKeeps(s: Sys, s': Sys, i: nat)
    requires Inv(s) && TestRequest(s, s', i)
    ensures Kept(s, s') && Closer(s, s', i)
  {
    hide Inv;
    if s.requested { StaysParked(s, i); } else { LeavesBarrier(s, i); }
  }

  lemma BeginWaitKeeps(s: Sys, s': Sys, i: nat)
    requires Inv(s) && BeginWait(s, s', i)
    ensures Kept(s, s') && Closer(s, s', i)
  {}

  lemma WakeUpKeeps(s: Sys, s': Sys, i: nat)
    requires Inv(s) && WakeUp(s, s', i)
    ensures Kept(s, s') && Closer(s, s', i)
  {
    hide Inv;
    InvAt(s, i);
    OneVcpuChanges(s, i, s.vs[i].(pc := Relock));
  }

  lemma TakeLockAgainKeeps(s: Sys, s': Sys, i: nat)
    requires Inv(s) && TakeLockAgain(s, s', i)
    ensures Kept(s, s') && Closer(s, s', i)
  {}

  lemma LeaveSafeKeeps(s: Sys, s': Sys, i: nat)
    requires Inv(s) && LeaveSafe(s, s', i)
    ensures Kept(s, s') && Closer(s, s', i)
  {
    hide Inv;
    InvAt(s, i);
    OneVcpuChanges(s, i, s.vs[i].(pc := Enter));
  }

  lemma EnterGuestKeeps(s: Sys, s': Sys, i: nat)
    requires Inv(s) && EnterGuest(s, s', i)
    ensures Kept(s, s') && Closer(s, s', i)
  {
    hide Inv;
    InvAt(s, i);
    OneVcpuChanges(s, i, s.vs[i].(pc := Guest, sig := false));
  }

  /** A run ended: another pass, or the end of the loop. */
  lemma EndsPass(s: Sys, i: nat)
    requires Inv(s) && i < |s.vs| && (At(s, i, Guest) || (At(s, i, Enter) && s.vs[i].byte))
    ensures Inv(Set(s, i, s.vs[i].(pc := Top))) && Inv(Set(s, i, s.vs[i].(pc := Top, sig := false)))
  {
    hide Inv;
    InvAt(s, i);
    OneVcpuChanges(s, i, s.vs[i].(pc := Top));
    OneVcpuChanges(s, i, s.vs[i].(pc := Top, sig := false));
  }

  lemma EndsLoop(s: Sys, i: nat)
    requires Inv(s) && i < |s.vs| && (At(s, i, Guest) || (At(s, i, Enter) && s.vs[i].byte))
    ensures var t := s.(quit := s.quit + {i});
      Inv(Set(t, i, s.vs[i].(pc := Leaving))) && Inv(Set(t, i, s.vs[i].(pc := Leaving, sig := false)))
  {
    hide Inv;
    QuitGrows(s, i);
    var t := s.(quit := s.quit + {i});
    InvAt(t, i);
    OneVcpuChanges(t, i, s.vs[i].(pc := Leaving));
    OneVcpuChanges(t, i, s.vs[i].(pc := Leaving, sig := false));
  }

  lemma BounceOffKeeps(s: Sys, s': Sys, i: nat)
    requires Inv(s) && BounceOff(s, s', i)
    ensures Kept(s, s') && Closer(s, s', i)
  {
    hide Inv;
    EndsPass(s, i);
    EndsLoop(s, i);
  }

  lemma ExitGuestKeeps(s: Sys, s': Sys, i: nat)
    requires Inv(s) && ExitGuest(s, s', i)
    ensures Kept(s, s') && Closer(s, s', i)
  {
    hide Inv;
    EndsPass(s, i);
    EndsLoop(s, i);
  }

  lemma DeregisterKeeps(s: Sys, s': Sys, i: nat)
    requires Inv(s) && Deregister(s, s', i)
    ensures Kept(s, s') && Closer(s, s', i)
  {
    hide Inv;
    InvAt(s, i);
    OneVcpuChanges(s, i, s.vs[i].(pc := Gone, listed := false));
  }

  lemma VcpuKeeps(s: Sys, s': Sys, i: nat)
    requires Inv(s) && VcpuStep(s, s', i)
    ensures Kept(s, s') && Closer(s, s', i)
  {
    if Register(s, s', i) { RegisterKeeps(s, s', i); }
    else if MarkStarted(s, s', i) { MarkStartedKeeps(s, s', i); }
    else if ClearByte(s, s', i) { ClearByteKeeps(s, s', i); }
    else if ReadRunning(s, s', i) { ReadRunningKeeps(s, s', i); }
    else if ReadRequest(s, s', i) { ReadRequestKeeps(s, s', i); }
    else if Park(s, s', i) { ParkKeeps(s, s', i); }
    else if TestRequest(s, s', i) { TestRequestKeeps(s, s', i); }
    else if BeginWait(s, s', i) { BeginWaitKeeps(s, s', i); }
    else if WakeUp(s, s', i) { WakeUpKeeps(s, s', i); }
    else if TakeLockAgain(s, s', i) { TakeLockAgainKeeps(s, s', i); }
    else if LeaveSafe(s, s', i) { LeaveSafeKeeps(s, s', i); }
    else if EnterGuest(s, s', i) { EnterGuestKeeps(s, s', i); }
    else if BounceOff(s, s', i) { BounceOffKeeps(s, s', i); }
    else if ExitGuest(s, s', i) { ExitGuestKeeps(s, s', i); }
    else if Deregister(s, s', i) { DeregisterKeeps(s, s', i); }
  }

  lemma StoreByteKeeps(s: Sys, i: nat)
    requires Inv(s) && i < |s.vs|
    ensures Inv(StoreByte(s, i))
  {
    hide Inv;
    InvAt(s, i);
    OneVcpuChanges(s, i, s.vs[i].(byte := true));
  }

  lemma SignalKeeps(s: Sys, i: nat)
    requires Inv(s) && i < |s.vs|
    ensures Inv(Signal(s, i))
  {
    hide Inv;
    InvAt(s, i);
    OneVcpuChanges(s, i, s.vs[i].(sig := true));
  }

  lemma StrayKickKeeps(s: Sys, s': Sys, i: nat)
    requires Inv(s) && StrayKick(s, s', i)
    ensures Kept(s, s')
  {
    hide Inv;
    StoreByteKeeps(s, i);
    SignalKeeps(s, i);
  }

  lemma PauseCallKeeps(s: Sys, s': Sys)
    requires Inv(s) && PauseCall(s, s')
    ensures Kept(s, s')
  {}

  lemma RaiseRequestKeeps(s: Sys, s': Sys)
    requires Inv(s) && RaiseRequest(s, s')
    ensures Kept(s, s')
  {}

  lemma PauseTableKeeps(s: Sys, s': Sys)
    requires Inv(s) && PauseTable(s, s')
    ensures Kept(s, s')
  {}

  /** The pauser has stored the byte of the vCPU it is at, or sent it the signal. */
  lemma PauseByteStored(s: Sys, k: nat)
    requires Inv(s) && s.ppc == PKick(k, false) && 0 < k < |s.vs|
    requires s.vs[k].pc.Safe? || s.vs[k].pc.Enter? ==> s.vs[k].byte
    ensures Inv(s.(ppc := PKick(k, true)))
  {}

  lemma PauseSignalSent(s: Sys, k: nat)
    requires Inv(s) && s.ppc == PKick(k, true) && 0 < k < |s.vs|
    requires s.vs[k].pc.Guest? ==> s.vs[k].sig
    ensures Inv(s.(ppc := PKick(k + 1, false)))
  {}

  lemma PauseByteKeeps(s: Sys, k: nat)
    requires Inv(s) && s.ppc == PKick(k, false) && 0 < k < |s.vs|
    ensures Inv(StoreByte(s, k).(ppc := PKick(k, true)))
  {
    hide Inv;
    InvAt(s, k);
    StoreByteKeeps(s, k);
    PauseByteStored(StoreByte(s, k), k);
  }

  lemma PauseSignalKeeps(s: Sys, k: nat)
    requires Inv(s) && s.ppc == PKick(k, true) && 0 < k < |s.vs|
    ensures Inv(Signal(s, k).(ppc := PKick(k + 1, false)))
  {
    hide Inv;
    InvAt(s, k);
    SignalKeeps(s, k);
    PauseSignalSent(Signal(s, k), k);
  }

  lemma PauseKicksDone(s: Sys)
    requires Inv(s) && s.ppc.PKick? && s.ppc.next >= |s.vs|
    ensures Inv(s.(ppc := PLock, table := None))
  {}

  lemma PauseSkipsItself(s: Sys)
    requires Inv(s) && s.ppc.PKick? && s.ppc.next == 0
    ensures Inv(s.(ppc := PKick(1, false)))
  {}

  /** A kick moves no vCPU. */
  lemma KickMovesNobody(s: Sys, k: nat)
    requires k < |s.vs|
    ensures |StoreByte(s, k).vs| == |Signal(s, k).vs| == |s.vs|
    ensures forall i: nat | i < |s.vs| ::
      DoesNotEnter(s.vs[i], StoreByte(s, k).vs[i]) && DoesNotEnter(s.vs[i], Signal(s, k).vs[i])
    ensures StoreByte(s, k) == s.(vs := StoreByte(s, k).vs) && Signal(s, k) == s.(vs := Signal(s, k).vs)
  {}

  lemma PauseKickKeeps(s: Sys, s': Sys)
    requires Inv(s) && PauseKick(s, s')
    ensures Kept(s, s')
  {
    hide Inv, SomeoneOut, StoreByte, Signal;
    var k := s.ppc.next;
    if k < |s.vs| { KickMovesNobody(s, k); }
    if k >= |s.vs| {
      PauseKicksDone(s);
    } else if k == 0 {
      PauseSkipsItself(s);
    } else {
      if s.ppc.half { PauseSignalKeeps(s, k); } else { PauseByteKeeps(s, k); }
    }
  }

  lemma PauseLockKeeps(s: Sys, s': Sys)
    requires Inv(s) && PauseLock(s, s')
    ensures Kept(s, s')
  {}

  lemma LoadRunningKeeps(s: Sys, s': Sys)
    requires Inv(s) && LoadRunning(s, s')
    ensures Kept(s, s')
  {}

  /** A count that reaches the number of other started vCPUs means all of them:
      each vCPU in the barrier has started, and the boot vCPU is not in it. */
  lemma FullBarrier(s: Sys)
    requires Inv(s) && s.vs[0].pc.Safe? && s.parked >= Target(s)
    ensures forall i: nat | 0 < i < |s.vs| :: HasStarted(s.vs[i].pc) ==> InBarrier(s.vs[i].pc)
  {
    SubsetOfSameSize(s.barrier, s.begun - {0});
  }

  lemma SubsetOfSameSize(a: set<nat>, b: set<nat>)
    requires a <= b && |a| >= |b|
    ensures a == b
  {
    assert b == a + (b - a);
    assert |b - a| == 0;
  }

  lemma LoadStartedKeeps(s: Sys, s': Sys)
    requires Inv(s) && LoadStarted(s, s')
    ensures Kept(s, s')
  {
    if s.parked < Target(s) {
      SomeoneIsOut(s);
    } else if s.requested {
      FullBarrier(s);
    }
  }

  lemma DecideKeeps(s: Sys, s': Sys)
    requires Inv(s) && Decide(s, s')
    ensures Kept(s, s')
  {}

  lemma ResumeKeeps(s: Sys, s': Sys)
    requires Inv(s) && Resume(s, s')
    ensures Kept(s, s')
  {}

  lemma PauseClearKeeps(s: Sys, s': Sys)
    requires Inv(s) && PauseClear(s, s')
    ensures Kept(s, s')
  {}

  lemma PauseNotifyKeeps(s: Sys, s': Sys)
    requires Inv(s) && PauseNotify(s, s')
    ensures Kept(s, s')
  {}

  lemma StopCallKeeps(s: Sys, s': Sys)
    requires Inv(s) && StopCall(s, s')
    ensures Kept(s, s')
  {}

  lemma StopTableKeeps(s: Sys, s': Sys)
    requires Inv(s) && StopTable(s, s')
    ensures Kept(s, s')
  {}

  lemma StopByteStored(s: Sys, k: nat)
    requires Inv(s) && s.spc == SKick(k, false) && k < |s.vs| && (PastFlag(s.vs[k].pc) ==> s.vs[k].byte)
    ensures Inv(s.(spc := SKick(k, true)))
  {}

  lemma StopSignalSent(s: Sys, k: nat)
    requires Inv(s) && s.spc == SKick(k, true) && k < |s.vs| && (s.vs[k].pc.Guest? ==> s.vs[k].sig)
    ensures Inv(s.(spc := SKick(k + 1, false)))
  {}

  lemma StopByteKeeps(s: Sys, k: nat)
    requires Inv(s) && s.spc == SKick(k, false) && k < |s.vs|
    ensures Inv(StoreByte(s, k).(spc := SKick(k, true)))
  {
    hide Inv;
    InvAt(s, k);
    StoreByteKeeps(s, k);
    StopByteStored(StoreByte(s, k), k);
  }

  lemma StopSignalKeeps(s: Sys, k: nat)
    requires Inv(s) && s.spc == SKick(k, true) && k < |s.vs|
    ensures Inv(Signal(s, k).(spc := SKick(k + 1, false)))
  {
    hide Inv;
    InvAt(s, k);
    SignalKeeps(s, k);
    StopSignalSent(Signal(s, k), k);
  }

  lemma StopKicksDone(s: Sys)
    requires Inv(s) && s.spc.SKick? && s.spc.at >= |s.vs|
    ensures Inv(s.(spc := SStore, table := None, round := true))
  {}

  lemma StopKickKeeps(s: Sys, s': Sys)
    requires Inv(s) && StopKick(s, s')
    ensures Kept(s, s')
  {
    assert !s.round;
    hide Inv;
    var k := s.spc.at;
    if k >= |s.vs| {
      StopKicksDone(s);
    } else {
      if s.spc.mid { StopSignalKeeps(s, k); } else { StopByteKeeps(s, k); }
    }
  }

  lemma StopClearKeeps(s: Sys, s': Sys)
    requires Inv(s) && StopClear(s, s')
    ensures Kept(s, s')
  {}

  lemma StopNotifyKeeps(s: Sys, s': Sys)
    requires Inv(s) && StopNotify(s, s')
    ensures Kept(s, s')
  {}

  lemma StepKeeps(s: Sys, s': Sys)
    requires Inv(s) && Step(s, s')
    ensures Kept(s, s')
  {
    if i: nat :| VcpuStep(s, s', i) {
      VcpuKeeps(s, s', i);
    } else if i: nat :| StrayKick(s, s', i) {
      StrayKickKeeps(s, s', i);
    } else if PauseCall(s, s') { PauseCallKeeps(s, s');
    } else if RaiseRequest(s, s') { RaiseRequestKeeps(s, s');
    } else if PauseTable(s, s') { PauseTableKeeps(s, s');
    } else if PauseKick(s, s') { PauseKickKeeps(s, s');
    } else if PauseLock(s, s') { PauseLockKeeps(s, s');
    } else if LoadRunning(s, s') { LoadRunningKeeps(s, s');
    } else if LoadStarted(s, s') { LoadStartedKeeps(s, s');
    } else if Decide(s, s') { DecideKeeps(s, s');
    } else if Resume(s, s') { ResumeKeeps(s, s');
    } else if PauseClear(s, s') { PauseClearKeeps(s, s');
    } else if PauseNotify(s, s') { PauseNotifyKeeps(s, s');
    } else if StopCall(s, s') { StopCallKeeps(s, s');
    } else if StopTable(s, s') { StopTableKeeps(s, s');
    } else if StopKick(s, s') { StopKickKeeps(s, s');
    } else if StopClear(s, s') { StopClearKeeps(s, s');
    } else if StopNotify(s, s') { StopNotifyKeeps(s, s');
    }
  }

  lemma {:induction false} RunKeeps(trace: seq<Sys>, k: nat)
    requires Run(trace) && k < |trace|
    ensures Inv(trace[k]) && (k > 0 ==> Kept(trace[k - 1], trace[k]))
  {
    if k == 0 {
      InitInv(trace[0]);
    } else {
      RunKeeps(trace, k - 1);
      StepKeeps(trace[k - 1], trace[k]);
    }
  }

  // ---------------------------------------------------------------- theorems

  /** From a pause's return of true to its own resume, the guest stands still: no other
      vCPU is in the guest, even when a stop releases the barrier meanwhile. Until a
      release, every vCPU that had started when the wait ended is in the barrier, and
      none is past it. The request goes only by the resume or by a stop that has
      finished its kicks. */
  lemma PauseHoldsTheGuestStill(trace: seq<Sys>, k: nat)
    requires Run(trace) && k < |trace| && trace[k].ppc.PHeld?
    ensures var s := trace[k];
      && (forall i: nat | 0 < i < |s.vs| :: !s.vs[i].pc.Guest?)
      && (s.requested || (s.round && !s.running))
      && (s.requested ==>
            forall i: nat | 0 < i < |s.vs| :: !Loose(s.vs[i].pc) && (i in s.granted ==> InBarrier(s.vs[i].pc)))
  {
    RunKeeps(trace, k);
  }

  /** A pause that has done its kicks waits for nobody who runs on: while its request is
      up, no other vCPU executes guest code with no signal on its way. */
  lemma PauseReachesTheGuest(trace: seq<Sys>, k: nat, i: nat)
    requires Run(trace) && k < |trace| && i < |trace[k].vs| && Summons(trace[k], i)
    ensures !Executes(trace[k].vs[i])
  {
    RunKeeps(trace, k);
  }

  /** Every step of a vCPU that a pause has kicked brings it closer to the barrier, which
      it is in after eight steps at most unless it exits, and it does not leave the
      barrier while the request is up. */
  lemma PauseGathers(s: Sys, s': Sys, i: nat)
    requires Inv(s) && Summons(s, i) && VcpuStep(s, s', i)
    ensures i < |s.vs| && i < |s'.vs|
    ensures InBarrier(s.vs[i].pc) ==> InBarrier(s'.vs[i].pc)
    ensures !InBarrier(s'.vs[i].pc) ==> Away(s'.vs[i].pc) < Away(s.vs[i].pc) <= 8
  {
    VcpuKeeps(s, s', i);
  }

  /** A requester asleep with no notify sent is owed one: another vCPU has started and
      not parked, which will notify as it does, or a stop is on its way to its own
      notify. */
  lemma RequesterIsNotLost(trace: seq<Sys>, k: nat)
    requires Run(trace) && k < |trace| && trace[k].ppc == PWaiting(false)
    ensures var s := trace[k];
      if s.running then SomeoneOut(s) else !s.spc.SIdle?
  {
    RunKeeps(trace, k);
    var s := trace[k];
    if s.running {
      SomeoneIsOut(s);
    }
  }

  lemma SomeoneIsOut(s: Sys)
    requires Inv(s) && s.vs[0].pc.Safe? && s.parked < Target(s)
    ensures SomeoneOut(s)
  {
    if s.begun - {0} <= s.barrier {
      assert s.begun == s.begun - {0} + {0};
      SubsetIsSmaller(s.begun - {0}, s.barrier);
      assert false;
    }
    var i :| i in s.begun - {0} && i !in s.barrier;
    assert i < |s.vs| && VcpuInv(s, i, s.vs[i]);
  }

  lemma SubsetIsSmaller(a: set<nat>, b: set<nat>)
    requires a <= b
    ensures |a| <= |b|
  {
    assert b == a + (b - a);
  }

  ghost predicate KeptAt(trace: seq<Sys>, j: nat)
    requires 0 < j < |trace|
  {
    Kept(trace[j - 1], trace[j])
  }

  /** What a finished round of kicks keeps from one state to a later one. */
  predicate Stopped(s: Sys, s': Sys) {
    s'.round && |s'.vs| == |s.vs| && forall i: nat | i < |s.vs| :: DoesNotEnter(s.vs[i], s'.vs[i])
  }

  lemma {:induction false} RoundStays(trace: seq<Sys>, a: nat, k: nat)
    requires a <= k < |trace| && trace[a].round
    requires forall j: nat | a < j <= k :: KeptAt(trace, j)
    ensures Stopped(trace[a], trace[k])
  {
    if a < k {
      hide Inv;
      RoundStays(trace, a, k - 1);
      assert KeptAt(trace, k);
    }
  }

  /** Once a stop has finished its kicks, in every later state of the run no vCPU executes
      guest code, and one that is in the guest, with the signal on its way, was there
      already when the kicks were done: none enters again. */
  lemma StopIsFinal(trace: seq<Sys>, a: nat, k: nat)
    requires Run(trace) && a <= k < |trace| && trace[a].round
    ensures |trace[k].vs| == |trace[a].vs|
    ensures forall i: nat | i < |trace[k].vs| :: !Executes(trace[k].vs[i])
    ensures forall i: nat | i < |trace[k].vs| :: DoesNotEnter(trace[a].vs[i], trace[k].vs[i])
  {
    forall j: nat | a < j <= k ensures KeptAt(trace, j) { RunKeeps(trace, j); }
    RoundStays(trace, a, k);
    RunKeeps(trace, k);
  }

  /** No release is lost: a vCPU asleep in the barrier with no notify sent is under
      a request, or a thread that cleared it has yet to notify. The request is up
      only while the boot vCPU is inside a pause that will itself clear it. */
  lemma NoReleaseIsLost(trace: seq<Sys>, k: nat, i: nat)
    requires Run(trace) && k < |trace| && i < |trace[k].vs| && trace[k].vs[i].pc == Waiting(false)
    ensures i > 0
    ensures trace[k].requested || trace[k].ppc.PNotify? || trace[k].spc.SNotify?
    ensures trace[k].requested ==> trace[k].vs[0].pc.Safe? && !trace[k].ppc.PIdle? && !trace[k].ppc.PNotify?
    ensures !(trace[k].ppc.PIdle? && trace[k].spc.SIdle?)
  {
    RunKeeps(trace, k);
  }

  /** After a stop's kicks, with no request up, every step of a vCPU brings it
      closer to its exit, so it takes at most fourteen more. */
  lemma StopDrains(s: Sys, s': Sys, i: nat)
    requires Inv(s) && s.round && !s.requested && VcpuStep(s, s', i)
    ensures i < |s.vs| && i < |s'.vs| && Left(s'.vs[i].pc) < Left(s.vs[i].pc) <= 14
  {
    VcpuKeeps(s, s', i);
  }

  /** Once a pause is over, every step of a parked vCPU brings it closer to the end of its
      checkpoint. */
  lemma ResumeFrees(s: Sys, s': Sys, i: nat)
    requires Inv(s) && !s.requested && VcpuStep(s, s', i) && InBarrier(s.vs[i].pc)
    ensures i < |s'.vs| && Left(s'.vs[i].pc) < Left(s.vs[i].pc)
    ensures InBarrier(s'.vs[i].pc) || s'.vs[i].pc.Safe?
  {
    hide VcpuStep, Inv;
    VcpuKeeps(s, s', i);
  }

  /** Every step of a vCPU that no stop, pause or kick holds up brings it closer to the
      guest, ten steps away at most. */
  lemma FreeVcpuEnters(s: Sys, s': Sys, i: nat)
    requires Inv(s) && VcpuStep(s, s', i) && IsFree(s, s.vs[i])
    ensures i < |s'.vs| && Outside(s'.vs[i].pc) < Outside(s.vs[i].pc) <= 10
  {
    VcpuKeeps(s, s', i);
  }

  /** A vCPU leaves its loop only after a stop, or because its own run ended the VM. */
  lemma VcpuLeavesForCause(trace: seq<Sys>, k: nat, i: nat)
    requires Run(trace) && k < |trace| && i < |trace[k].vs|
    requires trace[k].vs[i].pc.Leaving? || trace[k].vs[i].pc.Gone?
    ensures !trace[k].running || i in trace[k].quit
  {
    RunKeeps(trace, k);
  }

  /** A pause that is about to release without having been held timed out, or the VM has
      stopped. */
  lemma PauseFailsForCause(trace: seq<Sys>, k: nat)
    requires Run(trace) && k < |trace| && trace[k].ppc.PStore? && !trace[k].held
    ensures trace[k].timedOut || !trace[k].running
  {
    RunKeeps(trace, k);
  }

  /** A wait is given up only while a started vCPU is not parked. */
  lemma TimeoutHasCause(trace: seq<Sys>, k: nat)
    requires Run(trace) && 0 < k < |trace| && trace[k].timedOut && !trace[k - 1].timedOut
    ensures SomeoneOut(trace[k - 1])
  {
    RunKeeps(trace, k);
  }

  /** Steps a pause has left, with `n` vCPUs to kick, if it does not have to wait. */
  function PauseLeft(p: PausePc, n: nat): int {
    match p
    case PIdle => 0
    case PNotify => 1
    case PStore => 2
    case PHeld => 3
    case PDecide(_) => 4
    case PLoadStarted => 5
    case PLoadRunning => 6
    case PWaiting(_) => 7
    case PLock => 7
    case PKick(next, half) => 8 + (if next < n then 2 * (n - next) else 0) + (if half then 0 else 1)
    case PTable => 10 + 2 * n
    case PRequest => 11 + 2 * n
  }

  lemma PauseKickProceeds(s: Sys, s': Sys)
    requires PauseKick(s, s')
    ensures |s'.vs| == |s.vs| && PauseLeft(s'.ppc, |s'.vs|) < PauseLeft(s.ppc, |s.vs|)
  {
    hide StoreByte, Signal;
    if s.ppc.next < |s.vs| { KickMovesNobody(s, s.ppc.next); }
  }

  lemma PauseStartProceeds(s: Sys, s': Sys)
    requires RaiseRequest(s, s') || PauseTable(s, s')
    ensures PauseLeft(s'.ppc, |s'.vs|) < PauseLeft(s.ppc, |s.vs|)
  {}

  lemma PauseWaitProceeds(s: Sys, s': Sys)
    requires PauseLock(s, s') || LoadRunning(s, s') || LoadStarted(s, s')
    ensures
      || PauseLeft(s'.ppc, |s'.vs|) < PauseLeft(s.ppc, |s.vs|)
      || (s.ppc.PLoadStarted? && s'.ppc.PWaiting? && s.parked < Target(s))
  {}

  lemma PauseEndProceeds(s: Sys, s': Sys)
    requires Decide(s, s') || Resume(s, s') || PauseClear(s, s') || PauseNotify(s, s')
    ensures PauseLeft(s'.ppc, |s'.vs|) < PauseLeft(s.ppc, |s.vs|)
  {}

  /** A pause that was called goes on to its answer and its release, and waits again only
      for a vCPU that has started and is not parked. */
  lemma PauseProceeds(s: Sys, s': Sys)
    requires Inv(s) && PauserStep(s, s')
    ensures PauseCall(s, s') ==> s'.ppc.PRequest?
    ensures !PauseCall(s, s') ==>
      || PauseLeft(s'.ppc, |s'.vs|) < PauseLeft(s.ppc, |s.vs|)
      || (s.ppc.PLoadStarted? && s'.ppc.PWaiting? && SomeoneOut(s))
  {
    if s.ppc.PLoadStarted? && s.parked < Target(s) { SomeoneIsOut(s); }
    hide Inv, SomeoneOut, PauseLeft, Target, RaiseRequest, PauseTable, PauseKick, PauseLock, LoadRunning;
    hide LoadStarted, Decide, Resume, PauseClear, PauseNotify;
    if RaiseRequest(s, s') || PauseTable(s, s') { PauseStartProceeds(s, s'); }
    else if PauseKick(s, s') { PauseKickProceeds(s, s'); }
    else if PauseLock(s, s') || LoadRunning(s, s') || LoadStarted(s, s') { PauseWaitProceeds(s, s'); }
    else if !PauseCall(s, s') { PauseEndProceeds(s, s'); }
  }

  /** Steps a stop has left. */
  function StopLeft(p: StopPc, n: nat): int {
    match p
    case SIdle => 0
    case SNotify => 1
    case SStore => 2
    case SKick(at, mid) => 3 + (if at < n then 2 * (n - at) else 0) + (if mid then 0 else 1)
    case STable => 5 + 2 * n
  }

  /** A stop that was called clears the running flag and goes on to its return. */
  lemma StopProceeds(s: Sys, s': Sys)
    requires Inv(s) && StopperStep(s, s')
    ensures !s'.running
    ensures s.spc.SIdle? ==> !s'.spc.SIdle?
    ensures !s.spc.SIdle? ==> StopLeft(s'.spc, |s'.vs|) < StopLeft(s.spc, |s.vs|)
  {
    assert !s.spc.SIdle? ==> !s.running;
    hide Inv;
  }

  /** A stop releases the barrier: once it is past its release, and until another stop is
      at its own, no pause holds it any more. What request is up then is that of a pause
      still on its way, which will be refused and cleared. */
  lemma StopReleases(trace: seq<Sys>, k: nat)
    requires Run(trace) && k < |trace| && trace[k].round && !trace[k].spc.SStore?
    ensures var s := trace[k];
      && !s.running && !s.spc.STable? && !s.spc.SKick?
      && (s.requested ==> (InPause(s.ppc) && !s.ppc.PHeld?) || s.ppc.PRequest? || s.ppc.PStore?)
  {
    RunKeeps(trace, k);
  }

  /** So the vCPUs parked when a stop returns drain: with the pauser outside a call, or
      still holding a pause from before, no request is up, and each step of a vCPU brings
      it closer to its exit. */
  lemma StoppedVcpusDrain(trace: seq<Sys>, k: nat, s': Sys, i: nat)
    requires Run(trace) && k < |trace| && trace[k].round && trace[k].spc.SIdle?
    requires (trace[k].ppc.PIdle? || trace[k].ppc.PHeld?) && VcpuStep(trace[k], s', i)
    ensures !trace[k].requested
    ensures i < |s'.vs| && Left(s'.vs[i].pc) < Left(trace[k].vs[i].pc) <= 14
  {
    RunKeeps(trace, k);
    StopDrains(trace[k], s', i);
  }
}
