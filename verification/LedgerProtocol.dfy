/** The ledger as a protocol between the threads that add records, the writer
    thread and the file, one step per lock-held section plus the steps of a write,
    which may fail after any prefix of its bytes.

    The clock counts milliseconds and advances by steps of its own. A condition
    variable may wake the writer at any time. */
module LedgerProtocol {
  import opened Base
  import opened Ledger
  import opened LedgerStream

  const FLUSH_MILLIS: nat := 100

  // ------------------------------------------------------------------- state

  datatype WriterPc =
    | Top                       // at the top of its loop
    | Gather                    // waits, with a timeout, for more lines
    | Idle(notified: bool)      // waits without a timeout
    | Sleep(until: nat)         // sleeps before it tries a failed write again
    | Writing(done: nat)        // in a write, `done` of its bytes written
    | Failed                    // write failed, lock not taken yet
    | Wrote                     // write succeeded, lock not taken yet
    | Finish                    // out of the loop, last batches not reported yet
    | Done

  /** `tries` counts the writes begun once the writer had seen the close while its
      writes failed, and `sawAt` is when it first did. Both are history. */
  datatype Writer = Writer(
    pc: WriterPc,
    taken: seq<byte>,
    offset: nat,
    failing: bool,
    giveUpAt: Option<nat>,
    wrote: bool,
    target: nat,
    tries: nat,
    sawAt: Option<nat>)

  /** `owed` counts the threads that have yet to notify the writer. The last seven
      fields are history: the records offered while open and the account of them,
      how many of those were droppable, where in the stream each batch ends, the last
      batch a thread waits for, the closing batch, and how much of the stream the writer
      has reported written. */
  datatype Sys = Sys(
    buf: Buffer,
    w: Writer,
    file: seq<byte>,
    clock: nat,
    owed: nat,
    history: seq<Fate>,
    acct: Account,
    offered: nat,
    ends: seq<nat>,
    awaited: nat,
    closing: Option<nat>,
    noted: nat)

  ghost predicate Init(s: Sys) {
    s == Sys(EMPTY, Writer(Top, [], 0, false, None, false, 0, 0, None), [], s.clock, 0, [], NOTHING, 0, [], 0, None, 0)
  }

  // ------------------------------------------------------------------- steps

  function FateOf(b: Buffer, r: Record, droppable: bool): Fate {
    if Fits(b, r, droppable) then
      Kept(r.line, r.marker, droppable)
    else Lost
  }

  function Offer(s: Sys, r: Record, droppable: bool): Sys {
    s.(buf := AddRecord(s.buf, r, droppable),
       history := s.history + [FateOf(s.buf, r, droppable)],
       acct := Enter(s.acct, FateOf(s.buf, r, droppable)),
       offered := s.offered + if droppable then 1 else 0)
  }

  function OfferAll(s: Sys, rs: seq<Record>, droppable: bool): Sys {
    if rs == [] then s
    else Offer(OfferAll(s, rs[..|rs| - 1], droppable), rs[|rs| - 1], droppable)
  }

  /** The effect of adding a batch: on the buffer what `AddBatch` says, and the end
      of the batch noted. */
  function WithBatch(s: Sys, rs: seq<Record>, droppable: bool): Sys {
    var t := OfferAll(s, rs, droppable);
    t.(buf := AddBatch(s.buf, rs, droppable), ends := s.ends + [|t.acct.text|])
  }

  function Notified(w: Writer): Writer {
    if w.pc.Idle? then w.(pc := Idle(true)) else w
  }

  /** `captured` adds under the lock and owes its notify until the lock is free. */
  ghost predicate Capture(s: Sys, s': Sys) {
    exists rs: seq<Record> | rs != [] ::
      && !s.buf.closed
      && s' == WithBatch(s, rs, true).(owed := s.owed + if Wakes(s.buf, rs, true) then 1 else 0)
  }

  ghost predicate NotifyLater(s: Sys, s': Sys) {
    s.owed > 0 && s' == s.(owed := s.owed - 1, w := Notified(s.w))
  }

  function Submitted(s: Sys, rs: seq<Record>, last: bool): Sys {
    WithBatch(s, rs, false).(buf := SubmitBatch(s.buf, rs, last), w := Notified(s.w), awaited := s.buf.added + 1,
                             closing := if last then Some(s.buf.added + 1) else s.closing)
  }

  /** `submit` adds and notifies under the lock. */
  ghost predicate Submit(s: Sys, s': Sys) {
    exists rs: seq<Record>, last: bool :: !s.buf.closed && s' == Submitted(s, rs, last)
  }

  ghost predicate CloseOnDrop(s: Sys, s': Sys) {
    && !s.buf.closed
    && s' == s.(buf := DropClose(s.buf), ends := s.ends + [|s.acct.text|], w := Notified(s.w),
                awaited := s.buf.added + 1, closing := Some(s.buf.added + 1))
  }

  ghost predicate Tick(s: Sys, s': Sys) {
    s'.clock >= s.clock && s' == s.(clock := s'.clock)
  }

  /** The section of a pass that decides to stop, to give up, or to write. The
      clock is read twice in it. */
  function Pass(s: Sys, later: nat): Sys
    requires later >= s.clock
  {
    var w, b, t := s.w, s.buf, s.(clock := later);
    var (verdict, at) := Decide(b, w.taken, w.failing, w.giveUpAt, s.clock, later);
    var saw := if w.failing && b.closed && w.sawAt.None? then Some(s.clock) else w.sawAt;
    match verdict
    case Over => t.(w := w.(pc := Finish))
    case GiveUp => t.(buf := GivenUp(b), w := w.(pc := Done, giveUpAt := at, sawAt := saw))
    case Write =>
      t.(buf := Taken(b, w.taken),
         w := w.(pc := Writing(0), taken := w.taken + b.lines, giveUpAt := at, sawAt := saw, target := b.added,
                 tries := w.tries + if w.failing && b.closed then 1 else 0))
  }

  /** Top of the loop after a write that failed: sleep, then a pass. */
  ghost predicate Retry(s: Sys, s': Sys) {
    s.w.pc.Sleep? && s.clock >= s.w.pc.until && exists later: nat :: later >= s.clock && s' == Pass(s, later)
  }

  ghost predicate HasWork(b: Buffer) { b.lines != [] || IsDue(b) }

  function GoIdle(s: Sys): Sys { s.(buf := s.buf.(idle := true), w := s.w.(pc := Idle(false))) }

  /** Top of the loop otherwise: gather after a write, then go idle, unless there is
      something to do. */
  ghost predicate LookForLines(s: Sys, s': Sys) {
    && s.w.pc.Top?
    && if HasWork(s.buf) then exists later: nat :: later >= s.clock && s' == Pass(s, later)
       else if s.w.wrote then s' == s.(w := s.w.(pc := Gather))
       else s' == GoIdle(s)
  }

  /** A wakeup in the gathering wait, or its timeout. */
  ghost predicate GatherEnds(s: Sys, s': Sys) {
    && s.w.pc.Gather?
    && if HasWork(s.buf) then exists later: nat :: later >= s.clock && s' == Pass(s, later)
       else s' == s || s' == GoIdle(s)
  }

  /** A wakeup in the untimed wait. */
  ghost predicate IdleWakes(s: Sys, s': Sys) {
    && s.w.pc.Idle?
    && if HasWork(s.buf) then
         exists later: nat :: later >= s.clock && s' == Pass(s.(buf := s.buf.(idle := false)), later)
       else s' == s.(w := s.w.(pc := Idle(false)))
  }

  /** The file with `bytes` written at `at`, over what is there. */
  function Overwrite(file: seq<byte>, at: nat, bytes: seq<byte>): seq<byte>
    requires at <= |file|
  {
    file[..at] + bytes + if at + |bytes| < |file| then file[at + |bytes|..] else []
  }

  ghost predicate WriteSome(s: Sys, s': Sys) {
    && s.w.pc.Writing? && s'.w.pc.Writing?
    && var from, to := s.w.pc.done, s'.w.pc.done;
       && from < to <= |s.w.taken|
       && s.w.offset + from <= |s.file|
       && s' == s.(w := s.w.(pc := Writing(to)),
                   file := Overwrite(s.file, s.w.offset + from, s.w.taken[from..to]))
  }

  ghost predicate WriteSucceeds(s: Sys, s': Sys) {
    && s.w.pc == Writing(|s.w.taken|)
    && s' == s.(w := s.w.(pc := Wrote, offset := s.w.offset + |s.w.taken|, taken := [],
                          failing := false, wrote := true))
  }

  ghost predicate WriteFails(s: Sys, s': Sys) {
    && s.w.pc.Writing? && s.w.pc.done < |s.w.taken|
    && s' == s.(w := s.w.(pc := Failed, failing := true))
  }

  ghost predicate NoteFailure(s: Sys, s': Sys) {
    && s.w.pc.Failed?
    && s' == s.(buf := s.buf.(failing := true), w := s.w.(pc := Sleep(s.clock + FLUSH_MILLIS)))
  }

  ghost predicate NoteSuccess(s: Sys, s': Sys) {
    && s.w.pc.Wrote?
    && s' == s.(buf := Acknowledged(s.buf, s.w.target), noted := s.w.offset,
                w := s.w.(pc := if s.buf.closed && s.buf.lines == [] then Finish else Top))
  }

  ghost predicate ReportLast(s: Sys, s': Sys) {
    && s.w.pc.Finish?
    && s' == s.(buf := s.buf.(written := s.buf.added), w := s.w.(pc := Done))
  }

  ghost predicate Step(s: Sys, s': Sys) {
    || Capture(s, s') || NotifyLater(s, s') || Submit(s, s') || CloseOnDrop(s, s') || Tick(s, s')
    || Retry(s, s') || LookForLines(s, s') || GatherEnds(s, s') || IdleWakes(s, s')
    || WriteSome(s, s') || WriteSucceeds(s, s') || WriteFails(s, s')
    || NoteFailure(s, s') || NoteSuccess(s, s') || ReportLast(s, s')
  }

  ghost predicate Run(trace: seq<Sys>) {
    && |trace| > 0 && Init(trace[0])
    && forall k :: 0 <= k < |trace| - 1 ==> Step(trace[k], trace[k + 1])
  }

  // --------------------------------------------------------------- invariant

  /** Until the writer gives up, what is written, taken and buffered is the whole
      stream, and what a failed try left behind starts what the next one writes. */
  ghost predicate BytesInv(s: Sys) {
    var w := s.w;
    if s.buf.gaveUp then
      IsPrefix(s.file, s.acct.text)
    else
      && w.offset <= |s.file|
      && s.acct.text == s.file[..w.offset] + w.taken + s.buf.lines
      && IsPrefix(s.file[w.offset..], w.taken)
      && (w.pc.Writing? ==> w.pc.done <= |w.taken| && w.offset + w.pc.done <= |s.file|)
      && (w.pc.Writing? || w.pc.Failed? || w.pc.Sleep? || w.taken == [])
  }

  /** The written bytes end between two entries of the stream, and so do the taken
      ones. */
  ghost predicate WholeInv(s: Sys) {
    !s.buf.gaveUp ==>
      && |s.acct.text| in s.acct.cuts && s.w.offset in s.acct.cuts
      && s.w.offset + |s.w.taken| in s.acct.cuts
  }

  ghost predicate BatchesInv(s: Sys) {
    && |s.ends| == s.buf.added
    && s.buf.written <= s.buf.added && s.w.target <= s.buf.added
    && (s.w.pc.Writing? || s.w.pc.Failed? || s.w.pc.Sleep? || s.w.pc.Wrote? ==> s.buf.written <= s.w.target)
    && (forall n: nat | n < |s.ends| :: s.ends[n] <= |s.acct.text|)
    && (forall n: nat | n < s.buf.written :: s.ends[n] <= |s.file| && (!s.buf.gaveUp ==> s.ends[n] <= s.w.offset))
    && (forall n: nat | n < s.w.target :: s.ends[n] <= s.w.offset + |s.w.taken|)
    && (s.w.pc.Top? || s.w.pc.Gather? || s.w.pc.Idle? ==> s.buf.written == s.w.target)
    && s.awaited <= s.buf.added && (s.awaited > s.w.target ==> s.buf.urgent || s.buf.closed)
    && (s.buf.urgent ==> s.w.target < s.buf.added)
    && (s.buf.closed <==> s.closing.Some?) && (s.closing.Some? ==> s.closing.value == s.buf.added)
  }

  ghost predicate WriterInv(s: Sys) {
    var b, w := s.buf, s.w;
    && (b.gaveUp ==> b.closed && w.pc.Done?)
    && (w.pc.Finish? ==> b.closed && b.lines == [] && w.taken == [])
    && (w.pc.Done? && !b.gaveUp ==> b.closed && b.lines == [] && w.taken == [] && b.written == b.added)
    && ((w.pc.Failed? || w.pc.Sleep?) ==> w.failing)
    && ((w.pc.Top? || w.pc.Gather? || w.pc.Idle? || w.pc.Wrote?) ==> !w.failing)
    && (w.pc.Sleep? ==> b.failing) && (w.pc.Top? || w.pc.Gather? || w.pc.Idle? ==> !b.failing)
  }

  /** The untimed wait: the writer is marked idle until lines arrive, and a thread
      that ended that has notified it or still will. */
  ghost predicate WakeInv(s: Sys) {
    && (!s.w.pc.Idle? ==> !s.buf.idle)
    && (s.w.pc.Idle? ==> (s.buf.idle <==> s.buf.lines == []))
    && (s.w.pc.Idle? && HasWork(s.buf) ==> s.w.pc.notified || s.owed > 0)
  }

  ghost predicate DropsInv(s: Sys) {
    && s.buf.unmarked == s.acct.trailing
    && s.buf.dropped == s.acct.losses
    && s.offered == s.acct.keptDroppable + s.acct.losses
    && (!s.buf.gaveUp ==>
          && s.noted <= s.w.offset && (s.noted == s.w.offset || s.w.pc.Wrote?)
          && s.buf.pending == s.w.offset + |s.w.taken| - s.noted
          && s.acct.droppableEnd <= s.w.offset + MAX_BUFFERED_BYTES)
  }

  /** Every try after the close was seen began at least one flush interval after
      the one before it. */
  ghost predicate TriesInv(s: Sys) {
    var w := s.w;
    if w.giveUpAt.None? then w.tries == 0 && w.sawAt.None? && !s.buf.gaveUp
    else
      && s.buf.closed
      && w.sawAt.Some? && w.giveUpAt.value >= w.sawAt.value + STOP_MILLIS
      && (s.buf.gaveUp ==> s.clock >= w.giveUpAt.value)
      && (!w.pc.Done? && !w.pc.Finish? ==> s.buf.lines == [] && (w.pc.Writing? || w.pc.Failed? || w.pc.Sleep? || w.pc.Wrote?))
      && w.tries <= STOP_MILLIS / FLUSH_MILLIS
      && (w.pc.Writing? || w.pc.Failed? ==>
            w.tries > 0 && s.clock + STOP_MILLIS >= w.giveUpAt.value + FLUSH_MILLIS * (w.tries - 1))
      && (w.pc.Sleep? ==> w.pc.until + STOP_MILLIS >= w.giveUpAt.value + FLUSH_MILLIS * w.tries)
  }

  ghost predicate Inv(s: Sys) {
    && BytesInv(s) && WholeInv(s) && BatchesInv(s) && WriterInv(s) && WakeInv(s) && DropsInv(s)
    && TriesInv(s)
  }

  ghost predicate HistoryInv(s: Sys) { s.acct == AccountOf(s.history) }

  /** The invariant, and what only grows: the acknowledged batches, the history and
      the ends of batches, which a closed ledger does not change at all. */
  ghost predicate KeptBy(s: Sys, s': Sys) {
    && Inv(s')
    && s.buf.written <= s'.buf.written
    && IsPrefix(s.history, s'.history) && IsPrefix(s.ends, s'.ends)
    && (s.buf.closed ==> s'.buf.closed && s'.history == s.history && s'.ends == s.ends && s'.closing == s.closing)
    && (HistoryInv(s) ==> HistoryInv(s'))
  }

  lemma InitInv(s: Sys)
    requires Init(s)
    ensures Inv(s)
  {}

  lemma NotifyLaterKeeps(s: Sys, s': Sys)
    requires Inv(s) && NotifyLater(s, s')
    ensures KeptBy(s, s')
  {}

  lemma CloseOnDropKeeps(s: Sys, s': Sys)
    requires Inv(s) && CloseOnDrop(s, s')
    ensures KeptBy(s, s')
  {}

  lemma TickKeeps(s: Sys, s': Sys)
    requires Inv(s) && Tick(s, s')
    ensures KeptBy(s, s')
  {}

  /** Where the writer makes a pass: it holds the lock and has left its wait. */
  ghost predicate InPass(s: Sys) {
    && !s.buf.idle
    && (s.w.pc.Top? || s.w.pc.Gather? || s.w.pc.Idle? || (s.w.pc.Sleep? && s.clock >= s.w.pc.until))
  }

  lemma PassKeepsBytes(s: Sys, later: nat)
    requires BytesInv(s) && WriterInv(s) && later >= s.clock && InPass(s)
    ensures BytesInv(Pass(s, later))
  {
    var w, lines := s.w, s.buf.lines;
    assert s.file[..w.offset] + w.taken + lines == s.file[..w.offset] + (w.taken + lines) + [];
    PrefixGrows(s.file[w.offset..], w.taken, lines);
    if Pass(s, later).buf.gaveUp {
      PrefixAt(s.file, w.offset, w.taken, lines);
    }
  }

  lemma PrefixGrows(a: seq<byte>, b: seq<byte>, c: seq<byte>)
    requires IsPrefix(a, b)
    ensures IsPrefix(a, b + c)
  {}

  lemma PrefixAt(file: seq<byte>, offset: nat, taken: seq<byte>, lines: seq<byte>)
    requires offset <= |file| && IsPrefix(file[offset..], taken)
    ensures IsPrefix(file, file[..offset] + taken + lines)
  {
    assert file == file[..offset] + taken[..|file| - offset];
  }

  lemma PassKeepsBatches(s: Sys, later: nat)
    requires BytesInv(s) && WholeInv(s) && BatchesInv(s) && WriterInv(s) && later >= s.clock && InPass(s)
    ensures BatchesInv(Pass(s, later)) && WholeInv(Pass(s, later))
  {
    assert !s.buf.gaveUp ==> |s.acct.text| == s.w.offset + |s.w.taken| + |s.buf.lines|;
  }

  lemma PassKeepsTries(s: Sys, later: nat)
    requires WriterInv(s) && TriesInv(s) && later >= s.clock && InPass(s)
    ensures TriesInv(Pass(s, later))
  {}

  lemma PassKeepsRest(s: Sys, later: nat)
    requires WriterInv(s) && WakeInv(s) && DropsInv(s) && later >= s.clock && InPass(s)
    ensures WriterInv(Pass(s, later)) && WakeInv(Pass(s, later)) && DropsInv(Pass(s, later))
  {}

  lemma PassKeeps(s: Sys, later: nat)
    requires Inv(s) && later >= s.clock && InPass(s)
    ensures KeptBy(s, Pass(s, later))
  {
    PassKeepsBytes(s, later);
    PassKeepsBatches(s, later);
    PassKeepsTries(s, later);
    PassKeepsRest(s, later);
  }

  lemma LooksKeep(s: Sys, s': Sys)
    requires Inv(s) && (LookForLines(s, s') || GatherEnds(s, s') || Retry(s, s'))
    ensures KeptBy(s, s')
  {
    hide Pass;
    forall later: nat | later >= s.clock ensures KeptBy(s, Pass(s, later)) { PassKeeps(s, later); }
  }

  /** A writer that found work in its untimed wait goes on as from the top of its loop. */
  function Awake(s: Sys): Sys { s.(buf := s.buf.(idle := false), w := s.w.(pc := Top)) }

  lemma AwakeKeeps(s: Sys)
    requires Inv(s) && s.w.pc.Idle?
    ensures Inv(Awake(s)) && KeptBy(s, Awake(s))
  {}

  lemma AwakePasses(s: Sys, later: nat)
    requires s.w.pc.Idle? && later >= s.clock
    ensures Pass(s.(buf := s.buf.(idle := false)), later) == Pass(Awake(s), later)
  {}

  lemma IdleWakesKeeps(s: Sys, s': Sys)
    requires Inv(s) && IdleWakes(s, s')
    ensures KeptBy(s, s')
  {
    if HasWork(s.buf) {
      hide Pass;
      var later: nat :| later >= s.clock && s' == Pass(s.(buf := s.buf.(idle := false)), later);
      AwakeKeeps(s);
      AwakePasses(s, later);
      PassKeeps(Awake(s), later);
    }
  }

  /** Writing more of `taken` over what an earlier try left of it leaves a prefix of
      `taken`. */
  lemma OverwriteKeepsPrefix(file: seq<byte>, offset: nat, taken: seq<byte>, from: nat, to: nat)
    requires offset <= |file| && IsPrefix(file[offset..], taken)
    requires from <= to <= |taken| && offset + from <= |file|
    ensures var f := Overwrite(file, offset + from, taken[from..to]);
      && offset + to <= |f| && |file| <= |f| && f[..offset] == file[..offset] && IsPrefix(f[offset..], taken)
  {
    var f := Overwrite(file, offset + from, taken[from..to]);
    forall i | offset <= i < |f| ensures f[i] == taken[i - offset] {
      if i < |file| { assert file[i] == file[offset..][i - offset]; }
    }
  }

  lemma WriteSomeKeeps(s: Sys, s': Sys)
    requires Inv(s) && WriteSome(s, s')
    ensures KeptBy(s, s')
  {
    OverwriteKeepsPrefix(s.file, s.w.offset, s.w.taken, s.w.pc.done, s'.w.pc.done);
  }

  lemma WriteSucceedsKeeps(s: Sys, s': Sys)
    requires Inv(s) && WriteSucceeds(s, s')
    ensures KeptBy(s, s')
  {
    var file, offset, taken := s.file, s.w.offset, s.w.taken;
    assert file[offset..] == taken;
    assert file[..offset] + taken == file == file[..offset + |taken|];
    assert s.acct.text == file[..offset + |taken|] + [] + s.buf.lines;
  }

  lemma WriteFailsKeeps(s: Sys, s': Sys)
    requires Inv(s) && WriteFails(s, s')
    ensures KeptBy(s, s')
  {}

  lemma NoteFailureKeeps(s: Sys, s': Sys)
    requires Inv(s) && NoteFailure(s, s')
    ensures KeptBy(s, s')
  {}

  lemma NoteSuccessKeeps(s: Sys, s': Sys)
    requires Inv(s) && NoteSuccess(s, s')
    ensures KeptBy(s, s')
  {}

  lemma ReportLastKeeps(s: Sys, s': Sys)
    requires Inv(s) && ReportLast(s, s')
    ensures KeptBy(s, s')
  {}

  // ----------------------------------------------------------- adding records

  /** What adding a record to the open ledger keeps. */
  ghost predicate OpenInv(s: Sys) {
    BytesInv(s) && WholeInv(s) && BatchesInv(s) && DropsInv(s) && !s.buf.gaveUp && !s.buf.closed
  }

  lemma OfferKeeps(s: Sys, r: Record, droppable: bool)
    requires OpenInv(s)
    ensures OpenInv(Offer(s, r, droppable))
  {
    var f, added := FateOf(s.buf, r, droppable), Appended(s.buf, r);
    if f.Kept? {
      assert Enter(s.acct, f).text == s.acct.text + added;
      assert s.acct.text + added == s.file[..s.w.offset] + s.w.taken + (s.buf.lines + added);
    }
  }

  lemma OfferKeepsHistory(s: Sys, r: Record, droppable: bool)
    requires HistoryInv(s)
    ensures HistoryInv(Offer(s, r, droppable))
  {
    var h, f := s.history, FateOf(s.buf, r, droppable);
    assert (h + [f])[..|h|] == h;
  }

  lemma {:induction false} OfferAllKeeps(s: Sys, rs: seq<Record>, droppable: bool)
    requires OpenInv(s)
    ensures var t := OfferAll(s, rs, droppable);
      && OpenInv(t)
      && t == s.(buf := AddRecords(s.buf, rs, droppable), history := t.history, acct := t.acct, offered := t.offered)
      && IsPrefix(s.history, t.history) && (HistoryInv(s) ==> HistoryInv(t))
  {
    hide OpenInv, HistoryInv, Enter, AddRecord, FateOf;
    if rs != [] {
      OfferAllKeeps(s, rs[..|rs| - 1], droppable);
      var mid := OfferAll(s, rs[..|rs| - 1], droppable);
      OfferKeeps(mid, rs[|rs| - 1], droppable);
      if HistoryInv(mid) { OfferKeepsHistory(mid, rs[|rs| - 1], droppable); }
    }
  }

  lemma WithBatchKeeps(s: Sys, rs: seq<Record>, droppable: bool)
    requires OpenInv(s)
    ensures var t := WithBatch(s, rs, droppable);
      && OpenInv(t)
      && t.buf == s.buf.(lines := t.buf.lines, dropped := t.buf.dropped, unmarked := t.buf.unmarked,
                         added := s.buf.added + 1, idle := s.buf.idle && |t.buf.lines| == |s.buf.lines|)
      && |t.buf.lines| >= |s.buf.lines|
      && (Wakes(s.buf, rs, droppable) <==> s.buf.idle && |t.buf.lines| > |s.buf.lines|)
      && t == s.(buf := t.buf, history := t.history, acct := t.acct, offered := t.offered, ends := t.ends)
      && IsPrefix(s.history, t.history) && IsPrefix(s.ends, t.ends) && (HistoryInv(s) ==> HistoryInv(t))
  {
    OfferAllKeeps(s, rs, droppable);
    KeepsFlags(s.buf, rs, droppable);
  }

  lemma CaptureKeeps(s: Sys, s': Sys)
    requires Inv(s) && Capture(s, s')
    ensures KeptBy(s, s')
  {
    var rs: seq<Record> :| rs != [] && !s.buf.closed
      && s' == WithBatch(s, rs, true).(owed := s.owed + if Wakes(s.buf, rs, true) then 1 else 0);
    hide WithBatch, Wakes, Inv, OpenInv;
    WithBatchKeeps(s, rs, true) by { OpenKeeps(s); }
    OweKeeps(s, WithBatch(s, rs, true), s');
  }

  lemma OpenKeeps(s: Sys)
    requires Inv(s) && !s.buf.closed
    ensures OpenInv(s)
  {}

  /** A notify owed for lines that arrived while the writer was idle. */
  lemma OweKeeps(s: Sys, t: Sys, s': Sys)
    requires Inv(s) && OpenInv(t) && !s.buf.closed
    requires t.buf == s.buf.(lines := t.buf.lines, dropped := t.buf.dropped, unmarked := t.buf.unmarked,
                             added := t.buf.added, idle := s.buf.idle && |t.buf.lines| == |s.buf.lines|)
    requires |t.buf.lines| >= |s.buf.lines|
    requires t.w == s.w && t.clock == s.clock && t.owed == s.owed
    requires s' == t.(owed := s.owed + if s.buf.idle && |t.buf.lines| > |s.buf.lines| then 1 else 0)
    ensures Inv(s')
  {}

  /** Marking the ledger urgent or closed, with a notify, after a batch was added. */
  lemma FlagKeeps(s: Sys, t: Sys, s': Sys, last: bool)
    requires Inv(s) && OpenInv(t) && !s.buf.closed && !t.buf.closed && t.buf.gaveUp == s.buf.gaveUp
    requires t.w == s.w && t.clock == s.clock && t.owed == s.owed
    requires t.buf.idle == (s.buf.idle && |t.buf.lines| == |s.buf.lines|) && |t.buf.lines| >= |s.buf.lines|
    requires t.buf.added == s.buf.added + 1 && t.buf.failing == s.buf.failing
    requires s' == t.(buf := if last then t.buf.(closed := true) else t.buf.(urgent := true), w := Notified(t.w),
                      awaited := t.buf.added, closing := if last then Some(t.buf.added) else t.closing)
    ensures Inv(s')
  {}

  lemma SubmitKeeps(s: Sys, s': Sys)
    requires Inv(s) && Submit(s, s')
    ensures KeptBy(s, s')
  {
    var rs: seq<Record>, last: bool :| !s.buf.closed && s' == Submitted(s, rs, last);
    WithBatchKeeps(s, rs, false);
    FlagKeeps(s, WithBatch(s, rs, false), s', last);
  }

  // ----------------------------------------------------------------- theorems

  lemma StepKeeps(s: Sys, s': Sys)
    requires Inv(s) && Step(s, s')
    ensures KeptBy(s, s')
  {
    if Capture(s, s') { CaptureKeeps(s, s'); }
    else if NotifyLater(s, s') { NotifyLaterKeeps(s, s'); }
    else if Submit(s, s') { SubmitKeeps(s, s'); }
    else if CloseOnDrop(s, s') { CloseOnDropKeeps(s, s'); }
    else if Tick(s, s') { TickKeeps(s, s'); }
    else if Retry(s, s') || LookForLines(s, s') || GatherEnds(s, s') { LooksKeep(s, s'); }
    else if IdleWakes(s, s') { IdleWakesKeeps(s, s'); }
    else if WriteSome(s, s') { WriteSomeKeeps(s, s'); }
    else if WriteSucceeds(s, s') { WriteSucceedsKeeps(s, s'); }
    else if WriteFails(s, s') { WriteFailsKeeps(s, s'); }
    else if NoteFailure(s, s') { NoteFailureKeeps(s, s'); }
    else if NoteSuccess(s, s') { NoteSuccessKeeps(s, s'); }
    else if ReportLast(s, s') { ReportLastKeeps(s, s'); }
  }

  lemma {:induction false} RunKeeps(trace: seq<Sys>, k: nat)
    requires Run(trace) && k < |trace|
    ensures Inv(trace[k]) && HistoryInv(trace[k]) && (k > 0 ==> KeptBy(trace[k - 1], trace[k]))
  {
    if k == 0 {
      InitInv(trace[0]);
    } else {
      RunKeeps(trace, k - 1);
      StepKeeps(trace[k - 1], trace[k]);
    }
  }

  /** What only grows along a run. */
  ghost predicate Later(s: Sys, s': Sys) {
    && s.buf.written <= s'.buf.written
    && IsPrefix(s.history, s'.history) && IsPrefix(s.ends, s'.ends)
    && (s.buf.closed ==> s'.buf.closed && s'.history == s.history && s'.ends == s.ends && s'.closing == s.closing)
  }

  ghost predicate LaterAt(trace: seq<Sys>, j: nat)
    requires 0 < j < |trace|
  {
    Later(trace[j - 1], trace[j])
  }

  lemma {:induction false} ChainGrows(trace: seq<Sys>, a: nat, k: nat)
    requires a <= k < |trace|
    requires forall j: nat | a < j <= k :: LaterAt(trace, j)
    ensures Later(trace[a], trace[k])
  {
    if a < k {
      ChainGrows(trace, a, k - 1);
      assert LaterAt(trace, k);
      LaterChains(trace[a], trace[k - 1], trace[k]);
    }
  }

  lemma RunGrows(trace: seq<Sys>, a: nat, k: nat)
    requires Run(trace) && a <= k < |trace|
    ensures Later(trace[a], trace[k])
  {
    forall j: nat | a < j <= k ensures LaterAt(trace, j) { RunKeeps(trace, j); }
    ChainGrows(trace, a, k);
  }

  lemma LaterChains(r: Sys, s: Sys, t: Sys)
    requires Later(r, s) && Later(s, t)
    ensures Later(r, t)
  {}

  /** In every state of every run, through partial writes, retries, a close and a
      give-up, the file is a prefix of the accepted stream. Until a give-up, the
      written, the taken and the buffered bytes are the whole of it. */
  lemma FileIsStreamPrefix(trace: seq<Sys>, k: nat)
    requires Run(trace) && k < |trace|
    ensures var s := trace[k];
      && IsPrefix(s.file, Stream(s.history))
      && (!s.buf.gaveUp ==>
            && s.w.offset <= |s.file|
            && Stream(s.history) == s.file[..s.w.offset] + s.w.taken + s.buf.lines
            && IsPrefix(s.file[s.w.offset..], s.w.taken))
  {
    RunKeeps(trace, k);
    var s := trace[k];
    AccountIsStream(s.history);
    if !s.buf.gaveUp { PrefixAt(s.file, s.w.offset, s.w.taken, s.buf.lines); }
  }

  /** Between writes that succeeded, the file holds whole lines only. */
  lemma FileHoldsWholeRecords(trace: seq<Sys>, k: nat) returns (n: nat)
    requires Run(trace) && k < |trace| && !trace[k].buf.gaveUp
    requires !trace[k].w.failing && !trace[k].w.pc.Writing?
    ensures n <= |Render(trace[k].history)| && trace[k].file == Text(Render(trace[k].history)[..n])
  {
    RunKeeps(trace, k);
    var s := trace[k];
    AccountIsStream(s.history);
    n := CutIsBetweenEntries(s.history, s.w.offset);
    FirstEntries(Render(s.history), n);
    assert s.file == s.file[..s.w.offset] == Stream(s.history)[..s.w.offset];
  }

  /** Batch `m` of state `s` is in the file of the later state `t`. */
  ghost predicate InFile(s: Sys, t: Sys, m: nat)
    requires m < |s.ends|
  {
    var end, stream := s.ends[m], Stream(s.history);
    end <= |t.file| && end <= |stream| && t.file[..end] == stream[..end]
  }

  lemma WrittenIsInFile(s: Sys, t: Sys, m: nat)
    requires BatchesInv(s) && BatchesInv(t) && Later(s, t) && m < s.buf.written
    requires s.acct.text == Stream(s.history)
    requires IsPrefix(Stream(s.history), Stream(t.history)) && IsPrefix(t.file, Stream(t.history))
    ensures InFile(s, t, m)
  {
    assert s.ends[m] == t.ends[m];
  }

  /** A wait that returns Ok for the first `n` batches finds every byte of them in
      the file, and they stay there for the rest of the run. */
  lemma AcknowledgedIsWritten(trace: seq<Sys>, a: nat, k: nat, n: nat)
    requires Run(trace) && a <= k < |trace|
    requires 0 < n <= trace[a].buf.added && WaitOutcome(trace[a].buf, n) == Written
    ensures |trace[a].ends| == trace[a].buf.added
    ensures forall m: nat | m < n :: InFile(trace[a], trace[k], m)
  {
    var s, t := trace[a], trace[k];
    RunKeeps(trace, a);
    RunKeeps(trace, k);
    RunGrows(trace, a, k);
    FileIsStreamPrefix(trace, k);
    TextGrows(s.history, t.history);
    AccountIsStream(s.history);
    AccountIsStream(t.history);
    forall m: nat | m < n ensures InFile(s, t, m) { WrittenIsInFile(s, t, m); }
  }

  /** The writer is never left asleep: in its untimed wait with lines buffered, a
      batch waiting or the ledger closed, it has been notified or a thread owes it
      the notify. */
  lemma NoWakeupIsLost(trace: seq<Sys>, k: nat)
    requires Run(trace) && k < |trace| && trace[k].w.pc.Idle? && HasWork(trace[k].buf)
    ensures trace[k].w.pc.notified || trace[k].owed > 0
  {
    RunKeeps(trace, k);
  }

  /** Every droppable record offered is in the stream or counted as dropped, every
      drop is counted by one marker or still to be, and the unwritten bytes up to
      the last droppable record stay within the buffer's limit. */
  lemma DropsAreConserved(trace: seq<Sys>, k: nat)
    requires Run(trace) && k < |trace|
    ensures var s, es := trace[k], Render(trace[k].history);
      && s.offered == KeptDroppable(es) + s.buf.dropped
      && s.buf.dropped == Marked(es) + s.buf.unmarked
      && (!s.buf.gaveUp ==> LastDroppableEnd(es) <= s.w.offset + MAX_BUFFERED_BYTES)
  {
    RunKeeps(trace, k);
    AccountIsStream(trace[k].history);
  }

  /** The bytes a record adds behind history `h`: the marker line for the drops no marker
      counts yet, and its own line. */
  function Due(h: seq<Fate>, r: Record): seq<byte> {
    (if Trailing(h) > 0 then r.marker(Trailing(h)) else []) + r.line
  }

  /** What becomes of a droppable record: it is kept exactly when it leaves at most 4 MiB of
      the stream that the writer has not reported written. */
  function FateWithin(h: seq<Fate>, noted: nat, r: Record): Fate {
    if |Stream(h)| + |Due(h, r)| <= noted + 4 * 1024 * 1024 then Kept(r.line, r.marker, true) else Lost
  }

  lemma OfferedWithin(s: Sys, r: Record)
    requires OpenInv(s) && HistoryInv(s)
    ensures Offer(s, r, true).history == s.history + [FateWithin(s.history, s.noted, r)]
  {
    AccountIsStream(s.history);
  }

  /** A captured record is dropped only when it would pass the limit. This holds of each
      record of a batch, behind those before it. */
  lemma DroppedOnlyBeyondTheLimit(trace: seq<Sys>, k: nat, rs: seq<Record>, i: nat)
    requires Run(trace) && k < |trace| && !trace[k].buf.closed && i < |rs|
    ensures var s, h := trace[k], OfferAll(trace[k], rs[..i], true).history;
      OfferAll(s, rs[..i + 1], true).history == h + [FateWithin(h, s.noted, rs[i])]
  {
    hide OpenInv, HistoryInv, Inv, Offer, FateWithin;
    RunKeeps(trace, k);
    OpenKeeps(trace[k]);
    OfferAllKeeps(trace[k], rs[..i], true);
    assert rs[..i + 1][..i] == rs[..i] && rs[..i + 1][i] == rs[i];
    OfferedWithin(OfferAll(trace[k], rs[..i], true), rs[i]);
  }

  /** The bytes of a batch without drops. */
  function Total(h: seq<Fate>, rs: seq<Record>): nat {
    if |rs| == 0 then 0
    else Total(h, rs[..|rs| - 1]) + if |rs| == 1 then |Due(h, rs[0])| else |rs[|rs| - 1].line|
  }

  function KeptFates(rs: seq<Record>): seq<Fate> {
    seq(|rs|, i requires 0 <= i < |rs| => Kept(rs[i].line, rs[i].marker, true))
  }

  lemma {:induction false} TotalIsAdded(h: seq<Fate>, rs: seq<Record>)
    ensures |Stream(h + KeptFates(rs))| == |Stream(h)| + Total(h, rs)
    ensures |rs| > 0 ==> Trailing(h + KeptFates(rs)) == 0
  {
    if |rs| == 0 {
      assert h + KeptFates(rs) == h;
    } else {
      var n, f := |rs| - 1, Kept(rs[|rs| - 1].line, rs[|rs| - 1].marker, true);
      var before := h + KeptFates(rs[..n]);
      TotalIsAdded(h, rs[..n]);
      assert h + KeptFates(rs) == before + [f];
      hide Render, Trailing, Stream;
      StreamSnoc(before, f);
      RenderSnoc(before, f);
      if n == 0 { assert before == h; }
    }
  }

  /** So a captured batch that fits is kept whole. */
  lemma {:induction false} CapturedIsKept(trace: seq<Sys>, k: nat, rs: seq<Record>)
    requires Run(trace) && k < |trace| && !trace[k].buf.closed
    requires |Stream(trace[k].history)| + Total(trace[k].history, rs) <= trace[k].noted + 4 * 1024 * 1024
    ensures OfferAll(trace[k], rs, true).history == trace[k].history + KeptFates(rs)
  {
    var h := trace[k].history;
    if |rs| == 0 {
      assert h + KeptFates(rs) == h;
    } else {
      var n := |rs| - 1;
      var before := h + KeptFates(rs[..n]);
      CapturedIsKept(trace, k, rs[..n]);
      DroppedOnlyBeyondTheLimit(trace, k, rs, n);
      assert rs[..n + 1] == rs;
      TotalIsAdded(h, rs[..n]);
      assert KeptFates(rs) == KeptFates(rs[..n]) + [Kept(rs[n].line, rs[n].marker, true)];
      if n == 0 { assert before == h; }
    }
  }

  /** The markers are in the bytes: each stands in what is written, taken and buffered
      as the marker line for its count, right before the first record kept after its
      drops. */
  lemma MarkersAreWritten(trace: seq<Sys>, k: nat, n: nat)
    requires Run(trace) && k < |trace| && !trace[k].buf.gaveUp
    requires n < |Render(trace[k].history)| && Render(trace[k].history)[n].Marker?
    ensures trace[k].w.offset <= |trace[k].file|
    ensures var s, es := trace[k], Render(trace[k].history);
      var at, line := |Text(es[..n])|, es[n].marker(es[n].count);
      var bytes := s.file[..s.w.offset] + s.w.taken + s.buf.lines;
      && es[n].count > 0 && n + 1 < |es| && es[n + 1].Event?
      && at + |line| <= |bytes| && bytes[at..at + |line|] == line
  {
    FileIsStreamPrefix(trace, k);
    MarkersPrecedeRecords(trace[k].history, n);
    EntryStands(Render(trace[k].history), n);
  }

  /** A closing batch closes the ledger, nothing else does, and it takes nothing after it:
      that batch is the last and the only one. */
  lemma CloseIsFinal(trace: seq<Sys>, a: nat, k: nat)
    requires Run(trace) && a <= k < |trace|
    ensures trace[a].buf.closed <==> trace[a].closing.Some?
    ensures trace[a].closing.Some? ==>
      && trace[a].closing.value == |trace[a].ends|
      && trace[k].buf.closed && trace[k].closing == trace[a].closing
      && trace[k].history == trace[a].history && trace[k].ends == trace[a].ends
  {
    RunKeeps(trace, a);
    RunGrows(trace, a, k);
  }

  /** An idle writer has answered everyone: with nothing to do, the wait for the last batch
      a thread waits for, and so for every one before it, returns Ok. While it waits for
      lines its last write succeeded, and while it sleeps before another try it is known
      to fail. */
  lemma IdleWriterHasAnswered(trace: seq<Sys>, k: nat)
    requires Run(trace) && k < |trace|
    ensures var s := trace[k];
      && ((s.w.pc.Top? || s.w.pc.Gather? || s.w.pc.Idle?) && !HasWork(s.buf) ==>
            WaitOutcome(s.buf, s.awaited) == Written)
      && (s.w.pc.Sleep? ==> s.buf.failing) && (s.w.pc.Top? || s.w.pc.Gather? || s.w.pc.Idle? ==> !s.buf.failing)
      && (s.buf.urgent ==> s.w.target < s.buf.added)
  {
    RunKeeps(trace, k);
  }

  /** A step of the writer's own. */
  ghost predicate WriterStep(s: Sys, s': Sys) {
    || Retry(s, s') || LookForLines(s, s') || GatherEnds(s, s') || IdleWakes(s, s')
    || WriteSome(s, s') || WriteSucceeds(s, s') || WriteFails(s, s')
    || NoteFailure(s, s') || NoteSuccess(s, s') || ReportLast(s, s')
  }

  /** A writer that looks and finds work starts a write of everything accepted and not yet
      written, or finds the closed ledger written. */
  lemma WorkIsTaken(s: Sys, s': Sys)
    requires Inv(s) && WriterStep(s, s') && HasWork(s.buf) && (s.w.pc.Top? || s.w.pc.Gather? || s.w.pc.Idle?)
    ensures s'.w.pc.Writing? || s'.w.pc.Finish?
    ensures s'.w.offset <= |s'.file| && s'.acct.text == s'.file[..s'.w.offset] + s'.w.taken
    ensures s'.w.pc.Finish? ==> s'.buf.closed && s'.w.taken == []
  {
    assert s.acct.text == s.file[..s.w.offset] + ([] + s.buf.lines);
  }

  /** Once the writer has seen the close while its writes fail, it tries at most ten
      more times, and a try that succeeds is the last: it never goes back to the top of
      its loop or to a wait for lines. It exits with the whole stream written and
      acknowledged, or having given up, a second after it saw the close at the earliest.
      No thread waits on after that. */
  lemma WriterEnds(trace: seq<Sys>, k: nat)
    requires Run(trace) && k < |trace|
    ensures var s := trace[k];
      && s.w.tries <= 10
      && (s.w.giveUpAt.Some? ==> s.buf.closed && !s.w.pc.Top? && !s.w.pc.Gather? && !s.w.pc.Idle?)
      && (s.w.giveUpAt.Some? && s.w.pc.Wrote? ==> s.buf.lines == [])
      && (s.w.pc.Done? ==> s.buf.gaveUp || (s.file == Stream(s.history) && s.buf.written == s.buf.added))
      && (s.buf.gaveUp ==> s.w.sawAt.Some? && s.clock >= s.w.sawAt.value + 1000)
      && (s.w.pc.Done? ==> forall n: nat | n <= s.buf.added :: WaitOutcome(s.buf, n) != StillBuffered)
  {
    hide BytesInv, TriesInv, AccountOf, Stream;
    RunKeeps(trace, k);
    AccountIsStream(trace[k].history);
    TriesAreFew(trace[k]);
    DoneIsWhole(trace[k]);
  }

  lemma TriesAreFew(s: Sys)
    requires TriesInv(s)
    ensures s.w.tries <= 10
    ensures s.buf.gaveUp ==> s.w.sawAt.Some? && s.clock >= s.w.sawAt.value + 1000
    ensures s.w.giveUpAt.Some? ==> s.buf.closed && !s.w.pc.Top? && !s.w.pc.Gather? && !s.w.pc.Idle?
    ensures s.w.giveUpAt.Some? && s.w.pc.Wrote? ==> s.buf.lines == []
  {}

  lemma DoneIsWhole(s: Sys)
    requires BytesInv(s) && WriterInv(s)
    ensures s.w.pc.Done? && !s.buf.gaveUp ==> s.file == s.acct.text
  {
    if s.w.pc.Done? && !s.buf.gaveUp {
      assert s.file == s.file[..s.w.offset] == s.file[..s.w.offset] + [] + [];
    }
  }

  function Fates(rs: seq<Record>): seq<Fate> {
    seq(|rs|, i requires 0 <= i < |rs| => Kept(rs[i].line, rs[i].marker, false))
  }

  lemma {:induction false} SubmittedFates(s: Sys, rs: seq<Record>)
    ensures OfferAll(s, rs, false).history == s.history + Fates(rs)
  {
    if |rs| > 0 {
      var n := |rs| - 1;
      SubmittedFates(s, rs[..n]);
      assert Fates(rs) == Fates(rs[..n]) + [Kept(rs[n].line, rs[n].marker, false)];
    }
  }

  /** A submitted batch is kept whole, in order, with nothing between its records, right
      behind the stream so far and the marker for drops before it. */
  lemma SubmittedIsKept(s: Sys, rs: seq<Record>)
    requires |rs| > 0
    ensures var es, drops := Render(s.history), Trailing(s.history);
      Render(OfferAll(s, rs, false).history)
      == es + (if drops > 0 then [Marker(drops, rs[0].marker)] else [])
            + seq(|rs|, i requires 0 <= i < |rs| => Event(rs[i].line, false))
    ensures Trailing(OfferAll(s, rs, false).history) == 0
  {
    hide OfferAll, Render, Trailing;
    SubmittedFates(s, rs);
    RunOfRecords(s.history, Fates(rs));
    assert Lines(Fates(rs)) == seq(|rs|, i requires 0 <= i < |rs| => Event(rs[i].line, false));
  }
}
