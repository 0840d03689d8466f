/** The newc archive format of an initramfs: how an entry is laid out, and how a reader
    takes an archive apart. */
module Newc {
  import opened Base

  const WORD: int := 0x1_0000_0000
  const HEADER: nat := 110
  const MAGIC: seq<byte> := [0x30, 0x37, 0x30, 0x37, 0x30, 0x31]
  const TRAILER: seq<byte> := [0x54, 0x52, 0x41, 0x49, 0x4c, 0x45, 0x52, 0x21, 0x21, 0x21]

  // ------------------------------------------------------------ hexadecimal

  function Digit(d: int): byte
    requires 0 <= d < 16
  {
    if d < 10 then 0x30 + d else 0x41 + (d - 10)
  }

  /** The last `n` hexadecimal digits of `v`, in upper case. */
  function Hex(v: nat, n: nat): (s: seq<byte>)
    ensures |s| == n
  {
    if n == 0 then [] else Hex(v / 16, n - 1) + [Digit(v % 16)]
  }

  /** A digit in upper case. */
  predicate IsUpper(b: byte) { 0x30 <= b <= 0x39 || 0x41 <= b <= 0x46 }

  /** The value of a digit, in either case. */
  function DigitValue(b: byte): Option<int> {
    if 0x30 <= b <= 0x39 then Some(b - 0x30)
    else if 0x41 <= b <= 0x46 then Some(b - 0x41 + 10)
    else if 0x61 <= b <= 0x66 then Some(b - 0x61 + 10)
    else None
  }

  function ParseHex(s: seq<byte>): Option<int> {
    if s == [] then Some(0)
    else match (ParseHex(s[..|s| - 1]), DigitValue(s[|s| - 1]))
      case (Some(high), Some(low)) => Some(16 * high + low)
      case _ => None
  }

  function Power(n: nat): nat { if n == 0 then 1 else 16 * Power(n - 1) }

  lemma {:induction false} HexReadsBack(v: nat, n: nat)
    requires v < Power(n)
    ensures ParseHex(Hex(v, n)) == Some(v)
    ensures forall i :: 0 <= i < n ==> IsUpper(Hex(v, n)[i])
  {
    if n > 0 {
      HexReadsBack(v / 16, n - 1);
      assert Hex(v, n)[..n - 1] == Hex(v / 16, n - 1);
    }
  }

  /** A header field: the low 32 bits of a value, as eight digits. */
  function Field(v: int): (s: seq<byte>)
    ensures |s| == 8
  {
    Hex(v % WORD, 8)
  }

  lemma FieldReadsBack(v: int)
    ensures ParseHex(Field(v)) == Some(v % WORD)
  {
    assert Power(2) == 0x100 && Power(4) == 0x1_0000 && Power(6) == 0x100_0000 && Power(8) == WORD;
    HexReadsBack(v % WORD, 8);
  }

  // ----------------------------------------------------------------- layout

  datatype Entry = Entry(name: seq<byte>, mode: int, data: seq<byte>, nlink: int, rdevMajor: int, rdevMinor: int)

  const TRAILER_ENTRY := Entry(TRAILER, 0, [], 1, 0, 0)

  predicate AllZero(s: seq<byte>) { forall i :: 0 <= i < |s| ==> s[i] == 0 }

  function Zeros(n: nat): (s: seq<byte>)
    ensures |s| == n && AllZero(s)
  {
    seq(n, _ => 0)
  }

  /** The zeros behind `n` bytes, up to a multiple of four. */
  function Padding(n: nat): (s: seq<byte>)
    ensures (n + |s|) % 4 == 0 && |s| < 4 && AllZero(s)
  {
    if n % 4 != 0 then Zeros(4 - n % 4) else []
  }

  /** The zeros behind `n` bytes, up to a whole block. */
  function BlockPadding(n: nat): (s: seq<byte>)
    ensures (n + |s|) % 512 == 0 && |s| < 512 && AllZero(s)
  {
    if n % 512 != 0 then Zeros(512 - n % 512) else []
  }

  /** The thirteen fields of a header. */
  function Numbers(ino: int, e: Entry): (s: seq<int>)
    ensures |s| == 13
  {
    [ino, e.mode, 0, 0, e.nlink, 0, |e.data|, 0, 0, e.rdevMajor, e.rdevMinor, |e.name| + 1, 0]
  }

  function Fields(s: seq<int>): (t: seq<byte>)
    ensures |t| == 8 * |s|
  {
    if s == [] then [] else Fields(s[..|s| - 1]) + Field(s[|s| - 1])
  }

  function Header(ino: int, e: Entry): (s: seq<byte>)
    ensures |s| == HEADER
  {
    MAGIC + Fields(Numbers(ino, e))
  }

  /** The header with the name, and the data, each padded to four bytes. */
  function Layout(header: seq<byte>, name: seq<byte>, data: seq<byte>): (s: seq<byte>)
    ensures |s| % 4 == 0 && |s| > 0
  {
    var front := header + (name + [0]);
    (front + Padding(|front|)) + (data + Padding(|data|))
  }

  function Record(ino: int, e: Entry): seq<byte> { Layout(Header(ino, e), e.name, e.data) }

  /** The first `n` of a series of stretches, one behind the other. */
  function Joined(part: nat -> seq<byte>, n: nat): seq<byte> {
    if n == 0 then [] else Joined(part, n - 1) + part(n - 1)
  }

  /** The records of `entries`, numbered from 1. */
  function RecordOf(entries: seq<Entry>): nat -> seq<byte> {
    (k: nat) => if k < |entries| then Record(k + 1, entries[k]) else []
  }

  function Records(entries: seq<Entry>): seq<byte> { Joined(RecordOf(entries), |entries|) }

  function WithTrailer(entries: seq<Entry>): seq<byte> {
    Records(entries) + Record(|entries| + 1, TRAILER_ENTRY)
  }

  function Padded(s: seq<byte>): (t: seq<byte>)
    ensures |t| % 512 == 0
  {
    s + BlockPadding(|s|)
  }

  function Archive(entries: seq<Entry>): seq<byte> { Padded(WithTrailer(entries)) }

  // ----------------------------------------------------------------- reader

  /** An entry as read. */
  datatype Item = Item(
    ino: int,
    mode: int,
    uid: int,
    gid: int,
    nlink: int,
    mtime: int,
    devMajor: int,
    devMinor: int,
    rdevMajor: int,
    rdevMinor: int,
    check: int,
    name: seq<byte>,
    data: seq<byte>)

  /** The item of the thirteen values of a header. */
  function ItemOf(v: seq<int>, name: seq<byte>, data: seq<byte>): Item
    requires |v| == 13
  {
    Item(v[0], v[1], v[2], v[3], v[4], v[5], v[7], v[8], v[9], v[10], v[12], name, data)
  }

  function Align4(n: nat): nat { (n + 3) / 4 * 4 }

  /** The values of a row of fields. */
  function ParseFields(s: seq<byte>): Option<seq<int>> {
    if |s| < 8 then Some([])
    else match (ParseFields(s[..|s| - 8]), ParseHex(s[|s| - 8..]))
      case (Some(before), Some(last)) => Some(before + [last])
      case _ => None
  }

  /** The place of the first NUL from `i` on, or the end. */
  function NulFrom(s: seq<byte>, i: nat): (n: nat)
    requires i <= |s|
    ensures i <= n <= |s| && (n < |s| ==> s[n] == 0)
    ensures forall k :: i <= k < n ==> s[k] != 0
    decreases |s| - i
  {
    if i == |s| || s[i] == 0 then i else NulFrom(s, i + 1)
  }

  /** The bytes before the first NUL. */
  function CString(s: seq<byte>): seq<byte> { s[..NulFrom(s, 0)] }

  /** The entry at `pos` and where the next one starts. */
  function ReadEntry(ar: seq<byte>, pos: nat): Option<(Item, nat)> {
    if pos + HEADER > |ar| || ar[pos..pos + 6] != MAGIC then None
    else match ParseFields(ar[pos + 6..pos + HEADER])
      case Some(v) => if |v| == 13 then ReadBody(ar, pos + HEADER, v) else None
      case None => None
  }

  /** Zeros from `from` to `to`. */
  predicate IsZeroed(ar: seq<byte>, from: nat, to: nat) { from <= to <= |ar| && AllZero(ar[from..to]) }

  /** The name at `nameAt` and the data, each followed by zeros up to a multiple of four
      counted from the start of the archive. */
  function ReadBody(ar: seq<byte>, nameAt: nat, v: seq<int>): Option<(Item, nat)>
    requires |v| == 13
  {
    var size, nameSize := v[6], v[11];
    if nameSize < 1 || size < 0 || nameAt + nameSize > |ar| || ar[nameAt + nameSize - 1] != 0 then None
    else
      var nameEnd := nameAt + nameSize;
      var dataAt := Align4(nameEnd);
      var dataEnd := dataAt + size;
      if dataEnd > |ar| || !IsZeroed(ar, nameEnd, dataAt) || !IsZeroed(ar, dataEnd, Align4(dataEnd)) then None
      else Some((ItemOf(v, CString(ar[nameAt..nameEnd]), ar[dataAt..dataEnd]), Align4(dataEnd)))
  }

  /** The entries from `pos` to the trailer, each given by `read`, with what `ends` allows
      behind it. */
  function Collect(read: nat -> Option<(Item, nat)>, ends: nat -> bool, len: nat, pos: nat): Option<seq<Item>>
    decreases len - pos
  {
    match read(pos)
    case None => None
    case Some((item, next)) =>
      if item.name == TRAILER then (if ends(next) then Some([]) else None)
      else if pos < next <= len then
        match Collect(read, ends, len, next)
        case None => None
        case Some(items) => Some([item] + items)
      else None
  }

  function Reader(ar: seq<byte>): nat -> Option<(Item, nat)> { (pos: nat) => ReadEntry(ar, pos) }

  /** Only zeros follow. */
  function Ends(ar: seq<byte>): nat -> bool { (pos: nat) => IsZeroed(ar, pos, |ar|) }

  /** The entries of an archive. */
  function ReadAll(ar: seq<byte>): Option<seq<Item>> { Collect(Reader(ar), Ends(ar), |ar|, 0) }
}
