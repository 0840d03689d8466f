/** The buffer of the event ledger, as the threads that add records and the
    writer's sections change it under the lock.

    A record is opaque: the line its envelope serializes to, and the
    `vmm.dropped` line that would go before it for a number of drops. */
module Ledger {
  import opened Base

  const STOP_MILLIS: nat := 1000
  const MAX_BUFFERED_BYTES: nat := 4 * 1024 * 1024

  datatype Record = Record(line: seq<byte>, marker: nat -> seq<byte>)

  /** The value of a `State`. */
  datatype Buffer = Buffer(
    lines: seq<byte>,
    pending: nat,
    added: nat,
    written: nat,
    dropped: nat,
    unmarked: nat,
    urgent: bool,
    idle: bool,
    closed: bool,
    failing: bool,
    gaveUp: bool)

  const EMPTY := Buffer([], 0, 0, 0, 0, 0, false, false, false, false, false)

  /** What record `r` appends: a marker when drops are unmarked, then its line. */
  function Appended(b: Buffer, r: Record): seq<byte> {
    (if b.unmarked > 0 then r.marker(b.unmarked) else []) + r.line
  }

  predicate Fits(b: Buffer, r: Record, droppable: bool) {
    !droppable || |b.lines| + |Appended(b, r)| + b.pending <= MAX_BUFFERED_BYTES
  }

  function AddRecord(b: Buffer, r: Record, droppable: bool): Buffer {
    if Fits(b, r, droppable) then
      b.(lines := b.lines + Appended(b, r), unmarked := 0)
    else
      b.(unmarked := b.unmarked + 1, dropped := b.dropped + 1)
  }

  function AddRecords(b: Buffer, rs: seq<Record>, droppable: bool): Buffer {
    if rs == [] then b
    else AddRecord(AddRecords(b, rs[..|rs| - 1], droppable), rs[|rs| - 1], droppable)
  }

  /** Whether adding `rs` has to wake the writer: it waits for lines and gets some. */
  predicate Wakes(b: Buffer, rs: seq<Record>, droppable: bool) {
    b.idle && |AddRecords(b, rs, droppable).lines| > |b.lines|
  }

  function AddBatch(b: Buffer, rs: seq<Record>, droppable: bool): Buffer {
    AddRecords(b, rs, droppable).(
      added := b.added + 1,
      idle := b.idle && !Wakes(b, rs, droppable))
  }

  /** `submit`: the batch is added whole and is urgent, or closes the ledger. */
  function SubmitBatch(b: Buffer, rs: seq<Record>, last: bool): Buffer {
    if last then AddBatch(b, rs, false).(closed := true)
    else AddBatch(b, rs, false).(urgent := true)
  }

  /** The close of a ledger dropped while open, which counts as a batch. */
  function DropClose(b: Buffer): Buffer {
    b.(closed := true, added := b.added + 1)
  }

  predicate IsDue(b: Buffer) { b.closed || b.urgent }

  /** What a wait for the first `upTo` batches returns when it ends. */
  datatype WaitResult = Written | WriterGaveUp | StillBuffered

  function WaitOutcome(b: Buffer, upTo: nat): WaitResult {
    if b.written >= upTo then Written
    else if b.gaveUp then WriterGaveUp
    else StillBuffered
  }

  // How the writer's sections change the buffer.

  function Taken(b: Buffer, taken: seq<byte>): Buffer {
    b.(lines := [], pending := |taken| + |b.lines|, urgent := false)
  }

  function GivenUp(b: Buffer): Buffer { b.(lines := [], pending := 0, gaveUp := true) }

  function Acknowledged(b: Buffer, target: nat): Buffer {
    b.(failing := false, pending := 0, written := if b.closed && b.lines == [] then b.written else target)
  }

  datatype Verdict = Over | GiveUp | Write

  /** What a pass of the writer does, and the instant it gives up at, which the first
      pass that finds the ledger closed and the writes failing sets. */
  function Decide(b: Buffer, taken: seq<byte>, failing: bool, giveUpAt: Option<nat>, now: nat, later: nat)
    : (Verdict, Option<nat>)
  {
    if b.closed && b.lines == [] && taken == [] then (Over, giveUpAt)
    else if !(failing && b.closed) then (Write, giveUpAt)
    else
      var at := if giveUpAt.None? then now + STOP_MILLIS else giveUpAt.value;
      (if later >= at then GiveUp else Write, Some(at))
  }

  datatype SubmitResult = Added(upTo: nat) | Refused | Invalid

  class State {
    var lines: seq<byte>
    var pending: nat
    var added: nat
    var written: nat
    var dropped: nat
    var unmarked: nat
    var urgent: bool
    var idle: bool
    var closed: bool
    var failing: bool
    var gaveUp: bool

    ghost function View(): Buffer
      reads this
    {
      Buffer(lines, pending, added, written, dropped, unmarked, urgent, idle, closed, failing, gaveUp)
    }

    constructor ()
      ensures View() == EMPTY
    {
      lines, pending, added, written, dropped, unmarked := [], 0, 0, 0, 0, 0;
      urgent, idle, closed, failing, gaveUp := false, false, false, false, false;
    }

    /** Adds one record. Its lines go into the buffer first and are cut off again
        when they do not fit. */
    method AddOne(r: Record, droppable: bool)
      modifies this
      ensures View() == AddRecord(old(View()), r, droppable)
    {
      var end := |lines|;
      if unmarked > 0 {
        lines := lines + r.marker(unmarked);
      }
      lines := lines + r.line;
      assert lines == old(lines) + Appended(old(View()), r);
      if droppable && |lines| + pending > MAX_BUFFERED_BYTES {
        lines := lines[..end];
        unmarked := unmarked + 1;
        dropped := dropped + 1;
      } else {
        unmarked := 0;
      }
    }

    method Add(batch: seq<Record>, droppable: bool) returns (wake: bool)
      modifies this
      ensures View() == AddBatch(old(View()), batch, droppable)
      ensures wake == Wakes(old(View()), batch, droppable)
    {
      assert View() == AddRecords(old(View()), batch[..0], droppable);
      hide AddRecord, AddRecords;
      var before := |lines|;
      for i := 0 to |batch|
        invariant View() == AddRecords(old(View()), batch[..i], droppable)
      {
        AddOne(batch[i], droppable);
        AddsNext(old(View()), batch, i, droppable);
      }
      assert batch[..|batch|] == batch;
      KeepsFlags(old(View()), batch, droppable);
      added := added + 1;
      wake := idle && |lines| > before;
      if wake {
        idle := false;
      }
    }

    /** The `block` and `net` records of a device, dropped when they do not fit. */
    method Captured(batch: seq<Record>) returns (wake: bool)
      modifies this
      ensures old(closed) || batch == [] ==> View() == old(View()) && !wake
      ensures !old(closed) && batch != [] ==>
                View() == AddBatch(old(View()), batch, true) && wake == Wakes(old(View()), batch, true)
    {
      wake := false;
      if batch != [] && !closed {
        wake := Add(batch, true);
      }
    }

    /** A batch that waits for the writer, or the `last`, which closes the ledger.
        One whose payloads did not serialize is left out, and closes it all the
        same when it is the last. */
    method Submit(batch: seq<Record>, last: bool, serialized: bool) returns (r: SubmitResult)
      modifies this
      ensures !serialized && !last ==> r == Invalid && View() == old(View())
      ensures (serialized || last) && old(closed) ==> r == Refused && View() == old(View())
      ensures (serialized || last) && !old(closed) ==>
                && View() == SubmitBatch(old(View()), if serialized then batch else [], last)
                && r == Added(View().added)
    {
      if !serialized && !last { return Invalid; }
      var records := if serialized then batch else [];
      if closed { return Refused; }
      var _ := Add(records, false);
      if last { closed := true; } else { urgent := true; }
      r := Added(added);
    }

    /** A ledger dropped while open: the close counts as a batch. */
    method CloseOnDrop() returns (upTo: Option<nat>)
      modifies this
      ensures old(closed) ==> View() == old(View()) && upTo.None?
      ensures !old(closed) ==> View() == DropClose(old(View())) && upTo == Some(View().added)
    {
      if closed { return None; }
      closed := true;
      added := added + 1;
      upTo := Some(added);
    }

    /** The section at the head of a writer's pass: it is over, it gives up on writes
        that kept failing since the close, or it takes the buffered lines behind
        those it could not write. `now` and `later` are its two reads of the
        clock. */
    method Pass(taken: seq<byte>, failing: bool, giveUpAt: Option<nat>, now: nat, later: nat)
      returns (verdict: Verdict, taking: seq<byte>, at: Option<nat>, target: nat)
      modifies this
      ensures (verdict, at) == Decide(old(View()), taken, failing, giveUpAt, now, later)
      ensures View() == match verdict
                        case Over => old(View())
                        case GiveUp => GivenUp(old(View()))
                        case Write => Taken(old(View()), taken)
      ensures verdict.Write? ==> taking == taken + old(lines) && target == old(added)
    {
      taking, at, target := taken, giveUpAt, 0;
      if closed && lines == [] && taken == [] {
        return Over, taking, at, target;
      }
      if failing && closed {
        if at.None? { at := Some(now + STOP_MILLIS); }
        if later >= at.value {
          lines := [];
          pending := 0;
          gaveUp := true;
          return GiveUp, taking, at, target;
        }
      }
      verdict := Write;
      taking := taken + lines;
      lines := [];
      pending := |taking|;
      urgent := false;
      target := added;
    }

    /** A write succeeded; `over` says the ledger is closed and all of it written,
        in which case the last batches are reported once the file is closed. */
    method Acknowledge(target: nat) returns (over: bool)
      modifies this
      ensures View() == Acknowledged(old(View()), target)
      ensures over == (old(closed) && old(lines) == [])
    {
      failing := false;
      pending := 0;
      over := closed && lines == [];
      if !over { written := target; }
    }
  }

  lemma AddsNext(b: Buffer, rs: seq<Record>, i: nat, droppable: bool)
    requires i < |rs|
    ensures AddRecords(b, rs[..i + 1], droppable) == AddRecord(AddRecords(b, rs[..i], droppable), rs[i], droppable)
  {
    assert rs[..i + 1][..i] == rs[..i];
  }

  /** Adding records leaves everything but the lines and the drop counts alone. */
  lemma {:induction false} KeepsFlags(b: Buffer, rs: seq<Record>, droppable: bool)
    ensures var c := AddRecords(b, rs, droppable);
      && c == b.(lines := c.lines, dropped := c.dropped, unmarked := c.unmarked)
      && |c.lines| >= |b.lines|
  {
    if rs != [] { KeepsFlags(b, rs[..|rs| - 1], droppable); }
  }
}
