/** Guest RAM as its users see it: one partial map from guest-physical addresses to
    bytes, whatever the regions and the object behind them. */
module FlatRam {
  import opened Base
  import opened RamLayout

  /** The regions of a mapped RAM over an object of `n` bytes. */
  predicate Placed(rs: seq<Region>, n: nat) {
    && Ascending(rs)
    && forall i :: 0 <= i < |rs| ==> Fits(rs[i], n)
  }

  predicate InRam(rs: seq<Region>, a: int) { exists i :: 0 <= i < |rs| && Holds(rs[i], a) }

  /** Where in the object the byte at address `a` is kept. */
  ghost function Index(rs: seq<Region>, a: int): int
    requires InRam(rs, a)
  {
    var i :| 0 <= i < |rs| && Holds(rs[i], a);
    rs[i].fileOffset + (a - rs[i].gpa)
  }

  /** An address is held by one region only. */
  lemma IndexIn(rs: seq<Region>, n: nat, i: nat, a: int)
    requires Placed(rs, n) && i < |rs| && Holds(rs[i], a)
    ensures Index(rs, a) == rs[i].fileOffset + (a - rs[i].gpa)
    ensures 0 <= Index(rs, a) < n && 0 <= a <= U64_MAX
    ensures forall j :: 0 <= j < |rs| && Holds(rs[j], a) ==> j == i
  {
    assert forall j :: 0 <= j < i ==> EndsBefore(rs[j], rs[i]);
    assert forall j :: i < j < |rs| ==> EndsBefore(rs[i], rs[j]);
    assert Fits(rs[i], n);
  }

  lemma IndexInBounds(rs: seq<Region>, n: nat, a: int)
    requires Placed(rs, n) && InRam(rs, a)
    ensures 0 <= Index(rs, a) < n
  {
    var i :| 0 <= i < |rs| && Holds(rs[i], a);
    IndexIn(rs, n, i, a);
  }

  /** What the guest sees. */
  ghost function Flat(rs: seq<Region>, bytes: seq<byte>): map<int, byte>
    requires Placed(rs, |bytes|)
  {
    map a | 0 <= a <= U64_MAX && InRam(rs, a) :: IndexInBounds(rs, |bytes|, a); bytes[Index(rs, a)]
  }

  lemma FlatAt(rs: seq<Region>, bytes: seq<byte>, i: nat, a: int)
    requires Placed(rs, |bytes|) && i < |rs| && Holds(rs[i], a)
    ensures 0 <= rs[i].fileOffset + (a - rs[i].gpa) < |bytes|
    ensures a in Flat(rs, bytes) && Flat(rs, bytes)[a] == bytes[rs[i].fileOffset + (a - rs[i].gpa)]
  {
    IndexIn(rs, |bytes|, i, a);
  }

  /** A flat memory after `data` is written at `gpa`. */
  ghost function FlatWrite(flat: map<int, byte>, gpa: int, data: seq<byte>): map<int, byte> {
    map a | a in flat :: if gpa <= a < gpa + |data| then data[a - gpa] else flat[a]
  }

  /** The object after `data` is copied to `at`. */
  function Written(bytes: seq<byte>, at: nat, data: seq<byte>): (w: seq<byte>)
    requires at + |data| <= |bytes|
    ensures |w| == |bytes|
    ensures forall i :: 0 <= i < |w| ==> w[i] == if at <= i < at + |data| then data[i - at] else bytes[i]
  {
    bytes[..at] + data + bytes[at + |data|..]
  }

  /** The object after a write at `gpa`: what is not in RAM is refused and changes
      nothing. */
  function Write(rs: seq<Region>, bytes: seq<byte>, gpa: nat, data: seq<byte>): (w: seq<byte>)
    requires Placed(rs, |bytes|) && gpa <= U64_MAX && |data| <= U64_MAX
    ensures |w| == |bytes|
  {
    var found := Find(rs, gpa, |data|);
    if found.None? then bytes
    else
      assert Fits(rs[found.value.0], |bytes|);
      Written(bytes, rs[found.value.0].fileOffset + found.value.1, data)
  }

  // ------------------------------------------------------------ refinement

  predicate SpansApart(r: Region, q: Region) {
    r.fileOffset + r.size <= q.fileOffset || q.fileOffset + q.size <= r.fileOffset
  }

  /** No two regions are kept in one place of the object. */
  predicate FilesApart(rs: seq<Region>) {
    forall i, j :: 0 <= i < j < |rs| ==> SpansApart(rs[i], rs[j])
  }

  /** Content `now` is what a write to the flat memory makes of content `bytes`. */
  ghost predicate IsWritten(rs: seq<Region>, bytes: seq<byte>, gpa: nat, data: seq<byte>, now: seq<byte>)
    requires Placed(rs, |bytes|) && |now| == |bytes|
  {
    if InOneRegion(rs, gpa, |data|) then Flat(rs, now) == FlatWrite(Flat(rs, bytes), gpa, data)
    else Flat(rs, now) == Flat(rs, bytes)
  }

  /** One write through the regions is one write to the flat memory. */
  ghost predicate WriteRefines(rs: seq<Region>, bytes: seq<byte>, gpa: nat, data: seq<byte>)
    requires Placed(rs, |bytes|) && gpa <= U64_MAX && |data| <= U64_MAX
  {
    IsWritten(rs, bytes, gpa, data, Write(rs, bytes, gpa, data))
  }

  lemma SizesFit(rs: seq<Region>, n: nat)
    requires Placed(rs, n)
    ensures forall i :: 0 <= i < |rs| ==> rs[i].size <= U64_MAX
  {
    forall i | 0 <= i < |rs| ensures rs[i].size <= U64_MAX { assert Fits(rs[i], n); }
  }

  /** The byte of address `a`, in region `k`, after a copy into region `i`. */
  lemma CopiedAt(rs: seq<Region>, bytes: seq<byte>, i: nat, offset: nat, data: seq<byte>, k: nat, a: int)
    requires Placed(rs, |bytes|) && FilesApart(rs)
    requires i < |rs| && offset + |data| <= rs[i].size && k < |rs| && Holds(rs[k], a)
    ensures rs[i].fileOffset + rs[i].size <= |bytes| && rs[k].fileOffset + rs[k].size <= |bytes|
    ensures var at := rs[k].fileOffset + (a - rs[k].gpa);
            var gpa := rs[i].gpa + offset;
            Written(bytes, rs[i].fileOffset + offset, data)[at]
            == if gpa <= a < gpa + |data| then data[a - gpa] else bytes[at]
  {
    assert Fits(rs[i], |bytes|) && Fits(rs[k], |bytes|);
    if k < i { assert SpansApart(rs[k], rs[i]); assert EndsBefore(rs[k], rs[i]); }
    if i < k { assert SpansApart(rs[i], rs[k]); assert EndsBefore(rs[i], rs[k]); }
  }

  lemma CopyIsFlat(rs: seq<Region>, bytes: seq<byte>, i: nat, offset: nat, data: seq<byte>)
    requires Placed(rs, |bytes|) && FilesApart(rs)
    requires i < |rs| && offset + |data| <= rs[i].size
    ensures rs[i].fileOffset + rs[i].size <= |bytes|
    ensures Flat(rs, Written(bytes, rs[i].fileOffset + offset, data))
         == FlatWrite(Flat(rs, bytes), rs[i].gpa + offset, data)
  {
    assert Fits(rs[i], |bytes|);
    var w := Written(bytes, rs[i].fileOffset + offset, data);
    var want := FlatWrite(Flat(rs, bytes), rs[i].gpa + offset, data);
    forall a | a in Flat(rs, w) ensures a in want && Flat(rs, w)[a] == want[a] {
      var k :| 0 <= k < |rs| && Holds(rs[k], a);
      FlatAt(rs, bytes, k, a);
      FlatAt(rs, w, k, a);
      CopiedAt(rs, bytes, i, offset, data, k, a);
    }
  }

  /** A write in RAM is a copy into one region. */
  lemma WriteCopies(rs: seq<Region>, bytes: seq<byte>, gpa: nat, data: seq<byte>) returns (i: nat, offset: nat)
    requires Placed(rs, |bytes|) && gpa <= U64_MAX && |data| <= U64_MAX
    requires InOneRegion(rs, gpa, |data|)
    ensures i < |rs| && rs[i].gpa + offset == gpa && offset + |data| <= rs[i].size
    ensures rs[i].fileOffset + rs[i].size <= |bytes|
    ensures Write(rs, bytes, gpa, data) == Written(bytes, rs[i].fileOffset + offset, data)
  {
    SizesFit(rs, |bytes|);
    FoundExactlyInOneRegion(rs, gpa, |data|);
    var found := Find(rs, gpa, |data|);
    i, offset := found.value.0, found.value.1;
    assert Fits(rs[i], |bytes|);
  }

  lemma RefusedWrite(rs: seq<Region>, bytes: seq<byte>, gpa: nat, data: seq<byte>)
    requires Placed(rs, |bytes|) && gpa <= U64_MAX && |data| <= U64_MAX
    requires !InOneRegion(rs, gpa, |data|)
    ensures Write(rs, bytes, gpa, data) == bytes
  {
    SizesFit(rs, |bytes|);
    FoundExactlyInOneRegion(rs, gpa, |data|);
  }

  lemma WriteIsFlat(rs: seq<Region>, bytes: seq<byte>, gpa: nat, data: seq<byte>)
    requires Placed(rs, |bytes|) && gpa <= U64_MAX && |data| <= U64_MAX
    requires FilesApart(rs)
    ensures WriteRefines(rs, bytes, gpa, data)
  {
    if InOneRegion(rs, gpa, |data|) {
      var i, offset := WriteCopies(rs, bytes, gpa, data);
      CopyIsFlat(rs, bytes, i, offset, data);
      assert IsWritten(rs, bytes, gpa, data, Written(bytes, rs[i].fileOffset + offset, data));
    } else {
      RefusedWrite(rs, bytes, gpa, data);
    }
  }

  lemma WriteIsByte(rs: seq<Region>, bytes: seq<byte>, gpa: nat, data: seq<byte>, i: nat)
    requires Placed(rs, |bytes|) && i < |rs| && Holds(rs[i], gpa) && |data| == 1
    ensures gpa <= U64_MAX && InOneRegion(rs, gpa, |data|) && rs[i].fileOffset + rs[i].size <= |bytes|
    ensures Write(rs, bytes, gpa, data) == Written(bytes, rs[i].fileOffset + (gpa - rs[i].gpa), data)
  {
    IndexIn(rs, |bytes|, i, gpa);
    var k, _ := WriteCopies(rs, bytes, gpa, data);
    assert Holds(rs[k], gpa);
  }

  /** A copy of one byte that shows at a second address is not a write to the flat
      memory. */
  lemma AliasIsNotFlat(rs: seq<Region>, bytes: seq<byte>, at: nat, gpa: nat, data: seq<byte>, j: nat, other: nat)
    requires Placed(rs, |bytes|) && at < |bytes| && |data| == 1 && data[0] != bytes[at]
    requires InOneRegion(rs, gpa, 1) && j < |rs| && Holds(rs[j], other) && other != gpa
    requires rs[j].fileOffset + (other - rs[j].gpa) == at
    ensures !IsWritten(rs, bytes, gpa, data, Written(bytes, at, data))
  {
    FlatAt(rs, bytes, j, other);
    FlatAt(rs, Written(bytes, at, data), j, other);
    assert Flat(rs, Written(bytes, at, data))[other] != FlatWrite(Flat(rs, bytes), gpa, data)[other];
  }

  /** Two addresses of regions kept in one place of the object. */
  lemma SharedPlace(rs: seq<Region>, n: nat, i: nat, j: nat) returns (at: nat, gpa: nat, other: nat)
    requires Placed(rs, n) && i < j < |rs| && !SpansApart(rs[i], rs[j])
    ensures at < n && gpa < other && Holds(rs[i], gpa) && Holds(rs[j], other)
    ensures rs[i].fileOffset + (gpa - rs[i].gpa) == at == rs[j].fileOffset + (other - rs[j].gpa)
  {
    at := if rs[i].fileOffset < rs[j].fileOffset then rs[j].fileOffset else rs[i].fileOffset;
    gpa := rs[i].gpa + (at - rs[i].fileOffset);
    other := rs[j].gpa + (at - rs[j].fileOffset);
    assert Fits(rs[i], n) && Fits(rs[j], n) && EndsBefore(rs[i], rs[j]);
  }

  /** Then a write to one address shows at the other. */
  lemma AliasShows(rs: seq<Region>, bytes: seq<byte>, i: nat, j: nat) returns (gpa: nat, data: seq<byte>)
    requires Placed(rs, |bytes|) && i < j < |rs| && !SpansApart(rs[i], rs[j])
    ensures gpa <= U64_MAX && |data| == 1 && !WriteRefines(rs, bytes, gpa, data)
  {
    var at, here, other := SharedPlace(rs, |bytes|, i, j);
    gpa, data := here, [if bytes[at] == 0 then 1 else 0];
    WriteIsByte(rs, bytes, gpa, data, i);
    AliasIsNotFlat(rs, bytes, at, gpa, data, j, other);
  }

  /** The regions refine the flat memory, for every content and every write, exactly
      when no two of them are kept in one place of the object. */
  lemma RefinesExactlyWhenFilesApart(rs: seq<Region>, n: nat)
    requires Placed(rs, n)
    ensures FilesApart(rs) <==>
      forall bytes: seq<byte>, gpa: nat, data: seq<byte> ::
        |bytes| == n && gpa <= U64_MAX && |data| <= U64_MAX ==> WriteRefines(rs, bytes, gpa, data)
  {
    if FilesApart(rs) {
      forall bytes: seq<byte>, gpa: nat, data: seq<byte> | |bytes| == n && gpa <= U64_MAX && |data| <= U64_MAX
        ensures WriteRefines(rs, bytes, gpa, data)
      {
        WriteIsFlat(rs, bytes, gpa, data);
      }
    } else {
      var i, j :| 0 <= i < j < |rs| && !SpansApart(rs[i], rs[j]);
      var bytes := seq<byte>(n, _ => 0);
      var gpa, data := AliasShows(rs, bytes, i, j);
    }
  }

  // ------------------------------------------------------------- histories

  /** A write someone asks for. */
  datatype Store = Store(gpa: nat, data: seq<byte>)

  predicate IsCall(s: Store) { s.gpa <= U64_MAX && |s.data| <= U64_MAX }

  predicate AllCalls(log: seq<Store>) { forall k :: 0 <= k < |log| ==> IsCall(log[k]) }

  function WriteAll(rs: seq<Region>, bytes: seq<byte>, log: seq<Store>): (w: seq<byte>)
    requires Placed(rs, |bytes|) && AllCalls(log)
    ensures |w| == |bytes|
  {
    if log == [] then bytes
    else
      var last := log[|log| - 1];
      assert IsCall(last);
      Write(rs, WriteAll(rs, bytes, log[..|log| - 1]), last.gpa, last.data)
  }

  /** Store `s` is carried out and covers address `a`. */
  predicate Sets(rs: seq<Region>, s: Store, a: int) {
    InOneRegion(rs, s.gpa, |s.data|) && s.gpa <= a < s.gpa + |s.data|
  }

  lemma OneStore(rs: seq<Region>, bytes: seq<byte>, s: Store, a: int)
    requires Placed(rs, |bytes|) && FilesApart(rs) && IsCall(s)
    requires a in Flat(rs, bytes)
    ensures var now := Flat(rs, Write(rs, bytes, s.gpa, s.data));
            a in now && now[a] == if Sets(rs, s, a) then s.data[a - s.gpa] else Flat(rs, bytes)[a]
  {
    WriteIsFlat(rs, bytes, s.gpa, s.data);
  }

  /** The byte of the last store of `log` that sets `a`, or else `start`. */
  function LastByte(rs: seq<Region>, log: seq<Store>, a: int, start: byte): byte {
    if log == [] then start
    else
      var last := log[|log| - 1];
      if Sets(rs, last, a) then last.data[a - last.gpa] else LastByte(rs, log[..|log| - 1], a, start)
  }

  /** After any history of writes, an address holds the byte of the last write that was
      carried out and covers it, or else what it held at the start. */
  lemma {:induction false} LastWriteWins(rs: seq<Region>, bytes: seq<byte>, log: seq<Store>, a: int)
    requires Placed(rs, |bytes|) && FilesApart(rs) && AllCalls(log)
    requires a in Flat(rs, bytes)
    ensures var now := Flat(rs, WriteAll(rs, bytes, log));
            a in now && now[a] == LastByte(rs, log, a, Flat(rs, bytes)[a])
  {
    if log != [] {
      var before, last := log[..|log| - 1], log[|log| - 1];
      LastWriteWins(rs, bytes, before, a);
      assert IsCall(last);
      OneStore(rs, WriteAll(rs, bytes, before), last, a);
    }
  }
}
