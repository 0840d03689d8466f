/** The thread that owns a run's stop: how it is woken, what it writes to the ledger of
    the run's lifecycle, and who asked it to stop, as interleaved atomic steps.

    Any number of threads ask for a stop, start as vCPUs, exit, write records of their
    own, or panic. The wake pipe holds a bounded number of bytes; a write to a full one
    is dropped, and a read drains any part of it or, interrupted, nothing. */
module Supervisor {
  import opened Base

  /** What asked for the stop when it was no signal. */
  const NO_SIGNAL: int := -1

  /** The records the ledger accepted, as far as the lifecycle goes. */
  datatype Record = Start | VcpuStarted(cpu: nat) | Stop | Other

  datatype Pc =
    | Before                 // `vmm.start` not recorded yet
    | Look                   // about to read which vCPUs have started
    | Announce(upTo: nat)    // about to record the first `upTo`
    | CheckExited            // about to read the count of exits
    | CheckFirst             // about to read who asked
    | Blocked                // waits on the pipe without a timeout
    | Drain                  // woken, about to read the pipe
    | JoinCheck              // stopped; about to read the count of exits
    | JoinBlocked            // waits on the pipe until a deadline
    | JoinDrain
    | Closing                // about to read which vCPUs have started, a last time
    | Close(upTo: nat)       // about to close the ledger
    | Ended

  /** What a request does next: record its signal, or that it asked. */
  datatype Ask = RecordSignal(who: int) | RecordFirst(who: int)

  /** `owed` counts the threads that have yet to write their wake byte. The fields from
      `seenExited` on are history: how many exits and which `first` the supervisor last
      read, how many vCPUs the ledger has a record of, whether a panic closed it, who has
      asked for a stop and whether one of them has recorded that it did, whether the
      spawn or a wait failed, whether the join's deadline passed, and how many vCPUs had
      started when the supervisor last looked. */
  datatype Sys = Sys(
    pc: Pc,
    first: int,
    signal: int,
    asks: map<nat, Ask>,
    owed: nat,
    pipe: nat,
    capacity: nat,
    ids: seq<nat>,
    exited: nat,
    count: nat,
    announced: nat,
    log: seq<Record>,
    closed: bool,
    seenExited: nat,
    seenFirst: int,
    logged: nat,
    panicked: bool,
    asked: set<int>,
    answered: bool,
    fault: bool,
    overdue: bool,
    lastStarted: nat)

  predicate Init(s: Sys) {
    && s.capacity > 0
    && s == Sys(Before, 0, 0, map[], 0, 0, s.capacity, [], 0, s.count, 0, s.log, false, 0, 0, 0, false,
               {}, false, false, false, 0)
    && Lifecycle(s.log) == []
  }

  // ---------------------------------------------------------------- records

  function Lifecycle(log: seq<Record>): seq<Record> {
    if log == [] then []
    else Lifecycle(log[..|log| - 1]) + if log[|log| - 1].Other? then [] else [log[|log| - 1]]
  }

  /** The `vmm.vcpu_started` records of `cpus`. */
  function Announcements(cpus: seq<nat>): seq<Record> {
    seq(|cpus|, i requires 0 <= i < |cpus| => VcpuStarted(cpus[i]))
  }

  // ------------------------------------------------- the threads that wake it

  /** `request`: the signal first, then who asked, then the wake. */
  predicate AskCall(s: Sys, s': Sys, t: nat, who: int) {
    && t !in s.asks && who != 0
    && s' == s.(asks := s.asks[t := if who == NO_SIGNAL then RecordFirst(who) else RecordSignal(who)],
                asked := s.asked + {who})
  }

  predicate AskSignal(s: Sys, s': Sys, t: nat) {
    && t in s.asks && s.asks[t].RecordSignal?
    && s' == s.(signal := if s.signal == 0 then s.asks[t].who else s.signal,
                asks := s.asks[t := RecordFirst(s.asks[t].who)])
  }

  predicate AskFirst(s: Sys, s': Sys, t: nat) {
    && t in s.asks && s.asks[t].RecordFirst?
    && s' == s.(first := if s.first == 0 then s.asks[t].who else s.first,
                asks := s.asks - {t}, owed := s.owed + 1, answered := true)
  }

  /** `mark_started`: a vCPU calls it once. */
  predicate VcpuStarts(s: Sys, s': Sys, cpu: nat) {
    && !s.pc.Before? && cpu !in s.ids
    && s' == s.(ids := s.ids + [cpu], owed := s.owed + 1)
  }

  predicate VcpuExits(s: Sys, s': Sys) {
    s' == s.(exited := s.exited + 1, owed := s.owed + 1)
  }

  predicate Wake(s: Sys, s': Sys) {
    && s.owed > 0
    && s' == s.(owed := s.owed - 1, pipe := if s.pipe < s.capacity then s.pipe + 1 else s.pipe)
  }

  predicate OtherRecord(s: Sys, s': Sys) {
    !s.closed && s' == s.(log := s.log + [Other])
  }

  /** `record_failure`, for a panic once the run is current. */
  predicate PanicCloses(s: Sys, s': Sys) {
    && !s.pc.Before? && !s.closed
    && s' == s.(log := s.log + [Stop], closed := true, panicked := true)
  }

  // ------------------------------------------------------- the supervisor

  /** `record_start`, and then the loop, or the stop at once when the spawn failed. */
  predicate RecordStart(s: Sys, s': Sys) {
    && s.pc.Before? && !s.closed
    && (s' == s.(pc := Look, log := s.log + [Start]) || s' == s.(pc := JoinCheck, log := s.log + [Start], fault := true))
  }

  predicate ReadStarted(s: Sys, s': Sys) {
    s.pc.Look? && s' == s.(pc := Announce(|s.ids|))
  }

  /** `batch_until`, which a closed ledger refuses; the vCPUs count as announced. */
  predicate AnnounceStarted(s: Sys, s': Sys) {
    && s.pc.Announce? && s.announced <= s.pc.upTo <= |s.ids|
    && s' == (if s.closed then s
              else s.(log := s.log + Announcements(s.ids[s.announced..s.pc.upTo]), logged := s.pc.upTo))
             .(pc := CheckExited, announced := s.pc.upTo)
  }

  predicate ReadExited(s: Sys, s': Sys) {
    && s.pc.CheckExited?
    && s' == s.(pc := if s.exited > 0 then JoinCheck else CheckFirst, seenExited := s.exited)
  }

  predicate ReadFirst(s: Sys, s': Sys) {
    && s.pc.CheckFirst?
    && s' == s.(pc := if s.first != 0 then JoinCheck else Blocked, seenFirst := s.first)
  }

  /** `poll` returns with a byte, or fails, which ends the wait. */
  predicate PollReturns(s: Sys, s': Sys) {
    s.pc.Blocked? && ((s.pipe > 0 && s' == s.(pc := Drain)) || s' == s.(pc := JoinCheck, fault := true))
  }

  predicate ReadPipe(s: Sys, s': Sys) {
    && (s.pc.Drain? || s.pc.JoinDrain?)
    && s'.pipe <= s.pipe <= s'.pipe + 64
    && s' == s.(pc := if s.pc.Drain? then Look else JoinCheck, pipe := s'.pipe)
  }

  /** `join_timeout`: until every vCPU thread has exited or the deadline passes. */
  predicate JoinLook(s: Sys, s': Sys) {
    && s.pc.JoinCheck?
    && if s.exited >= s.count then s' == s.(pc := Closing, seenExited := s.exited)
       else || s' == s.(pc := JoinBlocked, seenExited := s.exited)
            || s' == s.(pc := Closing, seenExited := s.exited, overdue := true)
  }

  predicate JoinPoll(s: Sys, s': Sys) {
    s.pc.JoinBlocked? && ((s.pipe > 0 && s' == s.(pc := JoinDrain)) || s' == s.(pc := JoinCheck))
  }

  predicate ReadLate(s: Sys, s': Sys) {
    s.pc.Closing? && s' == s.(pc := Close(|s.ids|), lastStarted := |s.ids|)
  }

  predicate CloseLedger(s: Sys, s': Sys) {
    && s.pc.Close? && s.announced <= s.pc.upTo <= |s.ids|
    && s' == (if s.closed then s
              else s.(log := s.log + Announcements(s.ids[s.announced..s.pc.upTo]) + [Stop],
                      logged := s.pc.upTo, closed := true))
             .(pc := Ended, announced := s.pc.upTo)
  }

  ghost predicate Step(s: Sys, s': Sys) {
    || (exists t: nat, who: int :: AskCall(s, s', t, who))
    || (exists t: nat :: AskSignal(s, s', t)) || (exists t: nat :: AskFirst(s, s', t))
    || (exists cpu: nat :: VcpuStarts(s, s', cpu)) || VcpuExits(s, s') || Wake(s, s')
    || OtherRecord(s, s') || PanicCloses(s, s')
    || RecordStart(s, s') || ReadStarted(s, s') || AnnounceStarted(s, s') || ReadExited(s, s') || ReadFirst(s, s')
    || PollReturns(s, s') || ReadPipe(s, s') || JoinLook(s, s') || JoinPoll(s, s') || ReadLate(s, s')
    || CloseLedger(s, s')
  }

  ghost predicate Run(trace: seq<Sys>) {
    && |trace| > 0 && Init(trace[0])
    && forall k :: 0 <= k < |trace| - 1 ==> Step(trace[k], trace[k + 1])
  }

  // ---------------------------------------------------------------- invariant

  /** A byte is in the pipe, or a thread will write one. */
  predicate WakeComing(s: Sys) { s.pipe > 0 || s.owed > 0 }

  /** Whatever changed after the supervisor read it left a wake behind. */
  predicate WakeInv(s: Sys) {
    && s.capacity > 0 && s.announced <= |s.ids|
    && ((s.pc.Announce? || s.pc.Close?) ==> s.announced <= s.pc.upTo <= |s.ids|)
    && (s.pc.Announce? && s.pc.upTo < |s.ids| ==> WakeComing(s))
    && ((s.pc.CheckExited? || s.pc.CheckFirst? || s.pc.Blocked?) && s.announced < |s.ids| ==> WakeComing(s))
    && ((s.pc.CheckFirst? || s.pc.Blocked?) ==> s.seenExited == 0 && (s.exited > 0 ==> WakeComing(s)))
    && (s.pc.Blocked? ==> s.seenFirst == 0 && (s.first != 0 ==> WakeComing(s)))
    && (s.pc.JoinBlocked? ==> s.seenExited < s.count && (s.exited >= s.count ==> WakeComing(s)))
  }

  predicate AskInv(s: Sys) {
    && (forall t | t in s.asks :: s.asks[t].who != 0)
    && (forall t | t in s.asks && s.asks[t].RecordFirst? && s.asks[t].who != NO_SIGNAL :: s.signal != 0)
    && (s.first != 0 && s.first != NO_SIGNAL ==> s.signal != 0)
    && (forall t | t in s.asks :: s.asks[t].who in s.asked && (s.asks[t].RecordSignal? ==> s.asks[t].who != NO_SIGNAL))
    && (s.first != 0 ==> s.first in s.asked) && (s.signal != 0 ==> s.signal in s.asked && s.signal != NO_SIGNAL)
    && (s.answered ==> s.first != 0)
  }

  /** Out of the loop that waits for a reason to stop. */
  predicate IsStopping(pc: Pc) {
    pc.JoinCheck? || pc.JoinBlocked? || pc.JoinDrain? || pc.Closing? || pc.Close? || pc.Ended?
  }

  predicate CauseInv(s: Sys) {
    && (IsStopping(s.pc) ==> s.exited > 0 || s.first != 0 || s.fault)
    && (s.pc.Closing? || s.pc.Close? || s.pc.Ended? ==> s.exited >= s.count || s.overdue)
    && (s.pc.Close? ==> s.pc.upTo == s.lastStarted) && (s.pc.Ended? ==> s.announced == s.lastStarted)
  }

  predicate NoDuplicates(ids: seq<nat>) {
    forall i, j :: 0 <= i < j < |ids| ==> ids[i] != ids[j]
  }

  predicate LogInv(s: Sys) {
    && s.logged <= s.announced <= |s.ids| && NoDuplicates(s.ids)
    && (s.pc.Before? ==> !s.closed && s.logged == 0 && Lifecycle(s.log) == [])
    && (!s.pc.Before? ==>
          Lifecycle(s.log) == [Start] + Announcements(s.ids[..s.logged]) + if s.closed then [Stop] else [])
    && (!s.closed ==> s.logged == s.announced && !s.panicked)
    && (s.closed ==> s.log != [] && s.log[|s.log| - 1] == Stop)
    && (s.pc.Ended? ==> s.closed && (!s.panicked ==> s.logged == s.announced))
    && (s.closed && !s.panicked ==> s.pc.Ended?)
  }

  ghost predicate Inv(s: Sys) {
    WakeInv(s) && AskInv(s) && CauseInv(s) && LogInv(s)
  }

  lemma LifecycleSnoc(log: seq<Record>, r: Record)
    ensures Lifecycle(log + [r]) == Lifecycle(log) + if r.Other? then [] else [r]
  {
    assert (log + [r])[..|log|] == log;
  }

  lemma {:induction false} LifecycleAnnounces(log: seq<Record>, cpus: seq<nat>)
    ensures Lifecycle(log + Announcements(cpus)) == Lifecycle(log) + Announcements(cpus)
  {
    if cpus == [] {
      assert log + Announcements(cpus) == log && Lifecycle(log) + Announcements(cpus) == Lifecycle(log);
    } else {
      var n := |cpus| - 1;
      var fewer, last := Announcements(cpus[..n]), VcpuStarted(cpus[n]);
      assert Announcements(cpus) == fewer + [last];
      assert log + Announcements(cpus) == (log + fewer) + [last];
      LifecycleAnnounces(log, cpus[..n]);
      LifecycleSnoc(log + fewer, last);
    }
  }

  lemma AnnouncementsSplit(ids: seq<nat>, a: nat, b: nat)
    requires a <= b <= |ids|
    ensures Announcements(ids[..b]) == Announcements(ids[..a]) + Announcements(ids[a..b])
  {}

  /** What a step keeps, besides the invariant: who asked first is written once, and
      so is the first signal; nothing follows the close. */
  predicate KeptBy(s: Sys, s': Sys) {
    && (s.first != 0 ==> s'.first == s.first)
    && (s.signal != 0 ==> s'.signal == s.signal)
    && (s.closed ==> s'.closed && s'.log == s.log)
  }

  lemma AskKeeps(s: Sys, s': Sys, t: nat, who: int)
    requires Inv(s) && (AskCall(s, s', t, who) || AskSignal(s, s', t) || AskFirst(s, s', t))
    ensures Inv(s') && KeptBy(s, s')
  {}

  lemma VcpuStartsKeeps(s: Sys, s': Sys, cpu: nat)
    requires Inv(s) && VcpuStarts(s, s', cpu)
    ensures Inv(s') && KeptBy(s, s')
  {
    assert s'.ids[..s.logged] == s.ids[..s.logged];
  }

  lemma WakesKeep(s: Sys, s': Sys)
    requires Inv(s) && (VcpuExits(s, s') || Wake(s, s'))
    ensures Inv(s') && KeptBy(s, s')
  {}

  lemma RecordsKeep(s: Sys, s': Sys)
    requires Inv(s) && (OtherRecord(s, s') || PanicCloses(s, s'))
    ensures Inv(s') && KeptBy(s, s')
  {
    LifecycleSnoc(s.log, Other);
    LifecycleSnoc(s.log, Stop);
  }

  lemma RecordStartKeeps(s: Sys, s': Sys)
    requires Inv(s) && RecordStart(s, s')
    ensures Inv(s') && KeptBy(s, s')
  {
    LifecycleSnoc(s.log, Start);
    assert [Start] == [Start] + Announcements([]) + [];
  }

  lemma ReadStartedKeeps(s: Sys, s': Sys)
    requires Inv(s) && ReadStarted(s, s')
    ensures Inv(s') && KeptBy(s, s')
  {}

  lemma ReadExitedKeeps(s: Sys, s': Sys)
    requires Inv(s) && ReadExited(s, s')
    ensures Inv(s') && KeptBy(s, s')
  {}

  lemma ReadFirstKeeps(s: Sys, s': Sys)
    requires Inv(s) && ReadFirst(s, s')
    ensures Inv(s') && KeptBy(s, s')
  {}

  lemma PollReturnsKeeps(s: Sys, s': Sys)
    requires Inv(s) && PollReturns(s, s')
    ensures Inv(s') && KeptBy(s, s')
  {}

  lemma ReadPipeKeeps(s: Sys, s': Sys)
    requires Inv(s) && ReadPipe(s, s')
    ensures Inv(s') && KeptBy(s, s')
  {}

  lemma JoinLookKeeps(s: Sys, s': Sys)
    requires Inv(s) && JoinLook(s, s')
    ensures Inv(s') && KeptBy(s, s')
  {}

  lemma JoinPollKeeps(s: Sys, s': Sys)
    requires Inv(s) && JoinPoll(s, s')
    ensures Inv(s') && KeptBy(s, s')
  {}

  lemma ReadLateKeeps(s: Sys, s': Sys)
    requires Inv(s) && ReadLate(s, s')
    ensures Inv(s') && KeptBy(s, s')
  {}

  lemma AnnounceKeeps(s: Sys, s': Sys)
    requires Inv(s) && AnnounceStarted(s, s')
    ensures Inv(s') && KeptBy(s, s')
  {
    hide Lifecycle, Announcements;
    var cpus := s.ids[s.announced..s.pc.upTo];
    LifecycleAnnounces(s.log, cpus);
    AnnouncementsSplit(s.ids, s.announced, s.pc.upTo);
  }

  lemma CloseKeeps(s: Sys, s': Sys)
    requires Inv(s) && CloseLedger(s, s')
    ensures Inv(s') && KeptBy(s, s')
  {
    hide Lifecycle, Announcements;
    var cpus := s.ids[s.announced..s.pc.upTo];
    LifecycleAnnounces(s.log, cpus);
    LifecycleSnoc(s.log + Announcements(cpus), Stop);
    AnnouncementsSplit(s.ids, s.announced, s.pc.upTo);
  }

  lemma StepKeeps(s: Sys, s': Sys)
    requires Inv(s) && Step(s, s')
    ensures Inv(s') && KeptBy(s, s')
  {
    if t: nat, who: int :| AskCall(s, s', t, who) { AskKeeps(s, s', t, who); }
    else if t: nat :| AskSignal(s, s', t) { AskKeeps(s, s', t, 0); }
    else if t: nat :| AskFirst(s, s', t) { AskKeeps(s, s', t, 0); }
    else if cpu: nat :| VcpuStarts(s, s', cpu) { VcpuStartsKeeps(s, s', cpu); }
    else if VcpuExits(s, s') || Wake(s, s') { WakesKeep(s, s'); }
    else if OtherRecord(s, s') || PanicCloses(s, s') { RecordsKeep(s, s'); }
    else if RecordStart(s, s') { RecordStartKeeps(s, s'); }
    else if AnnounceStarted(s, s') { AnnounceKeeps(s, s'); }
    else if CloseLedger(s, s') { CloseKeeps(s, s'); }
    else if ReadStarted(s, s') { ReadStartedKeeps(s, s'); }
    else if ReadExited(s, s') { ReadExitedKeeps(s, s'); }
    else if ReadFirst(s, s') { ReadFirstKeeps(s, s'); }
    else if PollReturns(s, s') { PollReturnsKeeps(s, s'); }
    else if ReadPipe(s, s') { ReadPipeKeeps(s, s'); }
    else if JoinLook(s, s') { JoinLookKeeps(s, s'); }
    else if JoinPoll(s, s') { JoinPollKeeps(s, s'); }
    else if ReadLate(s, s') { ReadLateKeeps(s, s'); }
  }

  lemma {:induction false} RunKeeps(trace: seq<Sys>, k: nat)
    requires Run(trace) && k < |trace|
    ensures Inv(trace[k]) && (k > 0 ==> KeptBy(trace[k - 1], trace[k]))
  {
    if k > 0 {
      RunKeeps(trace, k - 1);
      StepKeeps(trace[k - 1], trace[k]);
    }
  }

  predicate KeptAt(trace: seq<Sys>, j: nat)
    requires 0 < j < |trace|
  {
    KeptBy(trace[j - 1], trace[j])
  }

  lemma {:induction false} ChainKeeps(trace: seq<Sys>, a: nat, k: nat)
    requires a <= k < |trace|
    requires forall j: nat | a < j <= k :: KeptAt(trace, j)
    ensures KeptBy(trace[a], trace[k])
  {
    if a < k {
      ChainKeeps(trace, a, k - 1);
      assert KeptAt(trace, k);
    }
  }

  // ---------------------------------------------------------------- theorems

  /** The supervisor is never left asleep. While it waits without a timeout, an exit
      counted, a stop asked for or a vCPU not announced yet has a byte in the pipe or
      a thread about to write one; so has the last exit while it joins. */
  lemma NoWakeIsLost(trace: seq<Sys>, k: nat)
    requires Run(trace) && k < |trace|
    ensures var s := trace[k];
      && (s.pc.Blocked? && (s.exited > 0 || s.first != 0 || s.announced < |s.ids|) ==> WakeComing(s))
      && (s.pc.JoinBlocked? && s.exited >= s.count ==> WakeComing(s))
  {
    RunKeeps(trace, k);
  }

  /** Who asked first, the first signal and the ledger's close are written once, with who
      did ask and a signal that did, and whoever sees that a signal asked first finds a
      signal recorded. A request that has come back is recorded, its own or one before. */
  lemma FirstIsKept(trace: seq<Sys>, a: nat, k: nat)
    requires Run(trace) && a <= k < |trace|
    ensures KeptBy(trace[a], trace[k])
    ensures trace[k].first != 0 && trace[k].first != NO_SIGNAL ==> trace[k].signal != 0
    ensures trace[k].first != 0 ==> trace[k].first in trace[k].asked
    ensures trace[k].signal != 0 ==> trace[k].signal in trace[k].asked && trace[k].signal != NO_SIGNAL
    ensures trace[k].answered ==> trace[k].first != 0
  {
    forall j: nat | a < j <= k ensures KeptAt(trace, j) { RunKeeps(trace, j); }
    ChainKeeps(trace, a, k);
    RunKeeps(trace, k);
  }

  /** The lifecycle the ledger holds once the run has ended: `vmm.start`, each vCPU
      recorded once in the order they started, and one `vmm.stop`, the last record of
      all. Unless a panic closed the ledger, every vCPU that had started when the
      supervisor last looked, right before the close, is in it. */
  lemma LifecycleIsInOrder(trace: seq<Sys>, k: nat)
    requires Run(trace) && k < |trace| && trace[k].pc.Ended?
    ensures var s := trace[k];
      && s.logged <= |s.ids| && NoDuplicates(s.ids)
      && Lifecycle(s.log) == [Start] + Announcements(s.ids[..s.logged]) + [Stop]
      && s.log != [] && s.log[|s.log| - 1] == Stop
      && (!s.panicked ==> s.logged == s.announced == s.lastStarted)
  {
    RunKeeps(trace, k);
  }

  /** The run stops for a reason: a vCPU has exited, a stop was asked for, or the spawn or
      a wait failed. Its ledger is closed once every vCPU thread has exited or the
      deadline for that has passed. */
  lemma StopHasCause(trace: seq<Sys>, k: nat)
    requires Run(trace) && k < |trace|
    ensures var s := trace[k];
      && (IsStopping(s.pc) ==> s.exited > 0 || s.first != 0 || s.fault)
      && (s.pc.Closing? || s.pc.Close? || s.pc.Ended? ==> s.exited >= s.count || s.overdue)
  {
    RunKeeps(trace, k);
  }

  /** A step of the supervisor's own. */
  predicate SupervisorStep(s: Sys, s': Sys) {
    || RecordStart(s, s') || ReadStarted(s, s') || AnnounceStarted(s, s') || ReadExited(s, s') || ReadFirst(s, s')
    || PollReturns(s, s') || ReadPipe(s, s') || JoinLook(s, s') || JoinPoll(s, s') || ReadLate(s, s')
    || CloseLedger(s, s')
  }

  /** Steps left to the end of the run, once nothing has to be waited for. */
  function StepsLeft(pc: Pc): nat {
    match pc
    case Before => 14
    case Blocked => 13
    case Drain => 12
    case Look => 11
    case Announce(_) => 10
    case CheckExited => 9
    case CheckFirst => 8
    case JoinBlocked => 6
    case JoinDrain => 5
    case JoinCheck => 4
    case Closing => 3
    case Close(_) => 2
    case Ended => 0
  }

  /** With a stop asked for or a vCPU gone, closer to the end of the loop, but for a step
      that blocks on a request it has just read as absent; with every vCPU gone, closer to
      the end after the loop. */
  predicate Nearer(s: Sys, s': Sys) {
    && (!IsStopping(s.pc) && (s.exited > 0 || s.first != 0) ==>
          StepsLeft(s'.pc) < StepsLeft(s.pc) || (s.pc.CheckFirst? && s.first == 0 && s'.pc.Blocked?))
    && (IsStopping(s.pc) && s.exited >= s.count ==> StepsLeft(s'.pc) < StepsLeft(s.pc))
  }

  lemma StartsProceed(s: Sys, s': Sys)
    requires RecordStart(s, s') || ReadStarted(s, s')
    ensures Nearer(s, s')
  {}

  lemma AnnounceProceeds(s: Sys, s': Sys)
    requires AnnounceStarted(s, s')
    ensures Nearer(s, s')
  {}

  lemma LooksProceed(s: Sys, s': Sys)
    requires ReadExited(s, s') || ReadFirst(s, s')
    ensures Nearer(s, s')
  {}

  lemma PollReturnsProceeds(s: Sys, s': Sys)
    requires PollReturns(s, s')
    ensures Nearer(s, s')
  {}

  lemma ReadPipeProceeds(s: Sys, s': Sys)
    requires ReadPipe(s, s')
    ensures Nearer(s, s')
  {}

  lemma JoinLookProceeds(s: Sys, s': Sys)
    requires JoinLook(s, s')
    ensures Nearer(s, s')
  {}

  lemma JoinPollProceeds(s: Sys, s': Sys)
    requires JoinPoll(s, s')
    ensures Nearer(s, s')
  {}

  lemma CloseProceeds(s: Sys, s': Sys)
    requires ReadLate(s, s') || CloseLedger(s, s')
    ensures Nearer(s, s')
  {}

  /** The supervisor goes on to the end of the run. */
  lemma SupervisorProceeds(s: Sys, s': Sys)
    requires SupervisorStep(s, s')
    ensures Nearer(s, s')
  {
    hide Nearer, RecordStart, ReadStarted, AnnounceStarted, ReadExited, ReadFirst, PollReturns, ReadPipe, JoinLook;
    hide JoinPoll, ReadLate, CloseLedger;
    if RecordStart(s, s') || ReadStarted(s, s') { StartsProceed(s, s'); }
    else if AnnounceStarted(s, s') { AnnounceProceeds(s, s'); }
    else if ReadExited(s, s') || ReadFirst(s, s') { LooksProceed(s, s'); }
    else if PollReturns(s, s') { PollReturnsProceeds(s, s'); }
    else if ReadPipe(s, s') { ReadPipeProceeds(s, s'); }
    else if JoinLook(s, s') { JoinLookProceeds(s, s'); }
    else if JoinPoll(s, s') { JoinPollProceeds(s, s'); }
    else if ReadLate(s, s') || CloseLedger(s, s') { CloseProceeds(s, s'); }
  }
}
