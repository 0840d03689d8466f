/** The writer of an initramfs archive. */
module CpioWriter {
  import opened Base
  import opened Newc
  import opened NewcRoundTrip

  class Writer {
    var buf: seq<byte>
    var ino: nat
    /** The entries added so far. */
    ghost var added: seq<Entry>

    ghost predicate Valid()
      reads this
    {
      buf == Records(added) && ino == |added|
    }

    constructor ()
      ensures Valid() && added == []
    {
      buf, ino, added := [], 0, [];
    }

    /** Zeros behind the `n` bytes just written, up to a multiple of four. */
    method Pad(n: nat)
      modifies `buf
      ensures buf == old(buf) + Padding(n)
    {
      if n % 4 != 0 {
        buf := buf + Zeros(4 - n % 4);
      }
    }

    method Append(e: Entry)
      modifies `buf, `ino
      ensures buf == old(buf) + Record(old(ino) + 1, e) && ino == old(ino) + 1
    {
      hide Header, Padding, Numbers;
      ghost var start := buf;
      ino := ino + 1;
      var name := e.name + [0];
      var hdr := BuildHeader(ino, e, |name|);
      buf := buf + hdr;
      buf := buf + name;
      Pad(|hdr| + |name|);
      buf := buf + e.data;
      Pad(|e.data|);
      assert |hdr + name| == |hdr| + |name|;
      assert buf == start + (((hdr + name) + Padding(|hdr| + |name|)) + (e.data + Padding(|e.data|)));
    }

    /** Adds one entry, numbered after those before it. */
    method Add(e: Entry)
      requires Valid()
      modifies this
      ensures Valid() && added == old(added) + [e]
    {
      RecordsSnoc(added, e);
      Append(e);
      added := added + [e];
    }

    /** The whole archive: a reader gets back the entries added, in order and nothing
        else, exactly when every size fits its field and no name holds a NUL or is the
        trailer's. */
    method Finish() returns (archive: seq<byte>)
      requires Valid()
      modifies `buf, `ino
      ensures archive == Archive(added) && |archive| % 512 == 0
      ensures ReadAll(archive) == Some(Items(added)) <==> AllPlain(added)
    {
      hide Record, Records, ReadAll, AllPlain;
      Append(TRAILER_ENTRY);
      assert buf == WithTrailer(added);
      if |buf| % 512 != 0 {
        buf := buf + Zeros(512 - |buf| % 512);
      }
      archive := buf;
      ArchiveReadsBack(added);
    }
  }

  method BuildHeader(ino: nat, e: Entry, nameLen: nat) returns (hdr: seq<byte>)
    requires nameLen == |e.name| + 1
    ensures hdr == Header(ino, e)
  {
    hide Fields, Field;
    ghost var done: seq<int> := [];
    hdr := MAGIC;
    assert hdr == MAGIC + Fields(done) by { NoFields(); }
    hdr, done := PutField(hdr, done, ino);
    hdr, done := PutField(hdr, done, e.mode);
    hdr, done := PutField(hdr, done, 0);
    hdr, done := PutField(hdr, done, 0);
    hdr, done := PutField(hdr, done, e.nlink);
    hdr, done := PutField(hdr, done, 0);
    hdr, done := PutField(hdr, done, |e.data|);
    hdr, done := PutField(hdr, done, 0);
    hdr, done := PutField(hdr, done, 0);
    hdr, done := PutField(hdr, done, e.rdevMajor);
    hdr, done := PutField(hdr, done, e.rdevMinor);
    hdr, done := PutField(hdr, done, nameLen);
    hdr, done := PutField(hdr, done, 0);
    assert done == Numbers(ino, e);
  }

  lemma NoFields()
    ensures Fields([]) == []
  {
  }

  method PutField(hdr: seq<byte>, ghost done: seq<int>, v: int) returns (longer: seq<byte>, ghost more: seq<int>)
    requires hdr == MAGIC + Fields(done)
    ensures |longer| == |hdr| + 8 && longer == MAGIC + Fields(more) && more == done + [v]
  {
    more := done + [v];
    assert more[..|done|] == done;
    longer := hdr + Field(v);
  }

  lemma {:induction false} JoinedSame(p: nat -> seq<byte>, q: nat -> seq<byte>, n: nat)
    requires forall k :: 0 <= k < n ==> p(k) == q(k)
    ensures Joined(p, n) == Joined(q, n)
  {
    if n > 0 { JoinedSame(p, q, n - 1); }
  }

  lemma RecordsSnoc(entries: seq<Entry>, e: Entry)
    ensures Records(entries + [e]) == Records(entries) + Record(|entries| + 1, e)
  {
    hide Record;
    JoinedSame(RecordOf(entries), RecordOf(entries + [e]), |entries|);
  }
}
