/** Reading back what was written to a newc archive. */
module NewcRoundTrip {
  import opened Base
  import opened Newc

  /** Archive `ar` holds `s` at `pos`. */
  predicate Has(ar: seq<byte>, pos: nat, s: seq<byte>) { pos + |s| <= |ar| && ar[pos..pos + |s|] == s }

  lemma HasParts(ar: seq<byte>, pos: nat, s: seq<byte>, t: seq<byte>)
    requires Has(ar, pos, s + t)
    ensures Has(ar, pos, s) && Has(ar, pos + |s|, t)
  {
    var whole := ar[pos..pos + |s + t|];
    assert whole == s + t;
    assert whole[..|s|] == s && whole[|s|..] == t;
    assert ar[pos..pos + |s|] == whole[..|s|];
    assert ar[pos + |s|..pos + |s| + |t|] == whole[|s|..];
  }

  // ----------------------------------------------------------------- header

  function Masked(s: seq<int>): (m: seq<int>)
    ensures |m| == |s|
  {
    seq(|s|, i requires 0 <= i < |s| => s[i] % WORD)
  }

  lemma ParsesOneMore(fields: seq<byte>, last: seq<byte>)
    requires |last| == 8
    ensures ParseFields(fields + last) ==
      match (ParseFields(fields), ParseHex(last))
      case (Some(before), Some(v)) => Some(before + [v])
      case _ => None
  {
    hide ParseHex;
    var all := fields + last;
    assert all[..|all| - 8] == fields && all[|all| - 8..] == last;
  }

  lemma MaskedSnoc(s: seq<int>)
    requires s != []
    ensures Masked(s) == Masked(s[..|s| - 1]) + [s[|s| - 1] % WORD]
  {
  }

  lemma {:induction false} FieldsReadBack(s: seq<int>)
    ensures ParseFields(Fields(s)) == Some(Masked(s))
  {
    if s == [] { return; }
    hide ParseFields, ParseHex, Field, Masked;
    var n := |s| - 1;
    FieldsReadBack(s[..n]);
    FieldReadsBack(s[n]);
    ParsesOneMore(Fields(s[..n]), Field(s[n]));
    MaskedSnoc(s);
  }

  // ------------------------------------------------------------------ names

  lemma CStringCuts(name: seq<byte>)
    ensures CString(name + [0]) == CString(name)
    ensures CString(name) == name <==> 0 !in name
  {
    var stored := name + [0];
    var n, m := NulFrom(stored, 0), NulFrom(name, 0);
    assert stored[|name|] == 0 && stored[m] == 0;
    assert n <= m;
    assert n < |name| ==> name[n] == stored[n] == 0;
    assert stored[..m] == name[..m];
  }

  // ---------------------------------------------------------------- records

  /** The sizes fit the header. */
  predicate IsSized(e: Entry) { |e.data| < WORD && |e.name| + 1 < WORD }

  /** What a reader is to see of an entry: numbers are kept to 32 bits, and owner, time,
      device and check are 0. */
  function Expected(ino: int, e: Entry): Item {
    Item(ino % WORD, e.mode % WORD, 0, 0, e.nlink % WORD, 0, 0, 0, e.rdevMajor % WORD, e.rdevMinor % WORD, 0,
         e.name, e.data)
  }

  function ReadBack(ino: int, e: Entry): Item { Expected(ino, e).(name := CString(e.name)) }

  lemma PartsHold(ar: seq<byte>, pos: nat, h: seq<byte>, n: seq<byte>, p: seq<byte>, d: seq<byte>, q: seq<byte>)
    requires Has(ar, pos, ((h + n) + p) + (d + q))
    ensures Has(ar, pos, h) && Has(ar, pos + |h|, n) && Has(ar, pos + |h| + |n|, p)
    ensures Has(ar, pos + |h| + |n| + |p|, d) && Has(ar, pos + |h| + |n| + |p| + |d|, q)
  {
    HasParts(ar, pos, (h + n) + p, d + q);
    HasParts(ar, pos, h + n, p);
    HasParts(ar, pos, h, n);
    HasParts(ar, pos + |(h + n) + p|, d, q);
  }

  lemma HasZeros(ar: seq<byte>, pos: nat, s: seq<byte>)
    requires Has(ar, pos, s) && AllZero(s)
    ensures IsZeroed(ar, pos, pos + |s|)
  {
  }

  /** From an aligned start, padding counted from there and alignment counted from the
      start of the archive agree. */
  lemma PaddingAligns(pos: nat, n: nat)
    requires pos % 4 == 0
    ensures Align4(pos + n) == pos + n + |Padding(n)|
  {
  }

  /** A record that starts aligned holds its parts where a reader looks for them. */
  lemma LayoutHolds(ar: seq<byte>, pos: nat, header: seq<byte>, name: seq<byte>, data: seq<byte>)
    requires Has(ar, pos, Layout(header, name, data)) && pos % 4 == 0
    ensures Has(ar, pos, header) && Has(ar, pos + |header|, name + [0])
    ensures Has(ar, Align4(pos + |header| + |name| + 1), data)
    ensures Align4(Align4(pos + |header| + |name| + 1) + |data|) == pos + |Layout(header, name, data)|
    ensures var dataAt := Align4(pos + |header| + |name| + 1);
      IsZeroed(ar, pos + |header| + |name| + 1, dataAt) && IsZeroed(ar, dataAt + |data|, Align4(dataAt + |data|))
  {
    hide Has, IsZeroed, Padding, Align4;
    var n := |header| + |name| + 1;
    var dataAt := pos + n + |Padding(n)|;
    assert |header + (name + [0])| == n;
    PartsHold(ar, pos, header, name + [0], Padding(n), data, Padding(|data|));
    PaddingAligns(pos, n);
    assert dataAt % 4 == 0 by { assert (n + |Padding(n)|) % 4 == 0; }
    PaddingAligns(dataAt, |data|);
    HasZeros(ar, pos + n, Padding(n));
    HasZeros(ar, dataAt + |data|, Padding(|data|));
  }

  /** What lies behind a header is read as the name and the data. */
  lemma BodyReads(ar: seq<byte>, nameAt: nat, name: seq<byte>, data: seq<byte>, v: seq<int>)
    requires |v| == 13 && v[6] == |data| && v[11] == |name| + 1
    requires Has(ar, nameAt, name + [0]) && Has(ar, Align4(nameAt + |name| + 1), data)
    requires var dataAt := Align4(nameAt + |name| + 1);
      IsZeroed(ar, nameAt + |name| + 1, dataAt) && IsZeroed(ar, dataAt + |data|, Align4(dataAt + |data|))
    ensures ReadBody(ar, nameAt, v)
         == Some((ItemOf(v, CString(name), data), Align4(Align4(nameAt + |name| + 1) + |data|)))
  {
    var stored := ar[nameAt..nameAt + |name| + 1];
    assert stored == name + [0] && stored[|name|] == 0;
    CStringCuts(name);
  }

  lemma HeadReads(ar: seq<byte>, pos: nat, nums: seq<int>)
    requires Has(ar, pos, MAGIC + Fields(nums)) && |nums| == 13
    ensures ReadEntry(ar, pos) == ReadBody(ar, pos + HEADER, Masked(nums))
  {
    HasParts(ar, pos, MAGIC, Fields(nums));
    FieldsReadBack(nums);
  }

  lemma BodyOfLayout(ar: seq<byte>, pos: nat, header: seq<byte>, name: seq<byte>, data: seq<byte>, v: seq<int>)
    requires |header| == HEADER && |v| == 13 && v[6] == |data| && v[11] == |name| + 1
    requires Has(ar, pos, Layout(header, name, data)) && pos % 4 == 0
    ensures ReadBody(ar, pos + HEADER, v)
         == Some((ItemOf(v, CString(name), data), pos + |Layout(header, name, data)|))
  {
    hide ReadBody, Layout;
    LayoutHolds(ar, pos, header, name, data);
    BodyReads(ar, pos + HEADER, name, data, v);
  }

  lemma HeadOfLayout(ar: seq<byte>, pos: nat, nums: seq<int>, name: seq<byte>, data: seq<byte>)
    requires |nums| == 13 && pos % 4 == 0 && Has(ar, pos, Layout(MAGIC + Fields(nums), name, data))
    ensures ReadEntry(ar, pos) == ReadBody(ar, pos + HEADER, Masked(nums))
  {
    LayoutHolds(ar, pos, MAGIC + Fields(nums), name, data);
    HeadReads(ar, pos, nums);
  }

  lemma LayoutReads(ar: seq<byte>, pos: nat, nums: seq<int>, name: seq<byte>, data: seq<byte>)
    requires |nums| == 13 && nums[6] == |data| < WORD && nums[11] == |name| + 1 < WORD
    requires Has(ar, pos, Layout(MAGIC + Fields(nums), name, data)) && pos % 4 == 0
    ensures var v := Masked(nums);
            ReadEntry(ar, pos) == Some((ItemOf(v, CString(name), data), pos + |Layout(MAGIC + Fields(nums), name, data)|))
  {
    hide ReadEntry, ReadBody, Layout, Fields;
    HeadOfLayout(ar, pos, nums, name, data);
    BodyOfLayout(ar, pos, MAGIC + Fields(nums), name, data, Masked(nums));
  }

  lemma SizedRecordReads(ar: seq<byte>, pos: nat, ino: int, e: Entry)
    requires Has(ar, pos, Record(ino, e)) && pos % 4 == 0 && IsSized(e)
    ensures ReadEntry(ar, pos) == Some((ReadBack(ino, e), pos + |Record(ino, e)|))
  {
    hide Layout, ReadEntry, Fields;
    LayoutReads(ar, pos, Numbers(ino, e), e.name, e.data);
  }

  /** A name or data whose size does not fit its field is read short. */
  lemma BodyIsShort(ar: seq<byte>, nameAt: nat, v: seq<int>, name: seq<byte>, data: seq<byte>)
    requires |v| == 13 && v[6] == |data| % WORD && v[11] == (|name| + 1) % WORD
    requires |data| >= WORD || |name| + 1 >= WORD
    ensures var r := ReadBody(ar, nameAt, v);
      r.Some? ==> r.value.0.name != name || r.value.0.data != data
  {
    var r := ReadBody(ar, nameAt, v);
    if r.Some? {
      assert |r.value.0.data| == v[6];
      var stored := ar[nameAt..nameAt + v[11]];
      assert stored[v[11] - 1] == 0;
      assert |r.value.0.name| == NulFrom(stored, 0) < v[11];
    }
  }

  lemma OversizedRecordIsShort(ar: seq<byte>, pos: nat, ino: int, e: Entry)
    requires Has(ar, pos, Record(ino, e)) && pos % 4 == 0 && !IsSized(e)
    ensures !ReadsAs(ReadEntry(ar, pos), Expected(ino, e))
  {
    hide Layout, ReadEntry, ReadBody, Fields;
    var nums := Numbers(ino, e);
    HeadOfLayout(ar, pos, nums, e.name, e.data);
    BodyIsShort(ar, pos + HEADER, Masked(nums), e.name, e.data);
  }

  /** What was read is `item`. */
  predicate ReadsAs(r: Option<(Item, nat)>, item: Item) { r.Some? && r.value.0 == item }

  /** A record at an aligned place reads back as its entry exactly when the sizes fit the
      header and the name holds no NUL, and then the next place is right behind it. */
  lemma RecordReads(ar: seq<byte>, pos: nat, ino: int, e: Entry)
    requires Has(ar, pos, Record(ino, e)) && pos % 4 == 0
    ensures ReadsAs(ReadEntry(ar, pos), Expected(ino, e)) <==> IsSized(e) && 0 !in e.name
    ensures ReadsAs(ReadEntry(ar, pos), Expected(ino, e)) ==> ReadEntry(ar, pos).value.1 == pos + |Record(ino, e)|
  {
    hide ReadEntry, Record;
    if IsSized(e) {
      SizedRecordReads(ar, pos, ino, e);
      CStringCuts(e.name);
    } else {
      OversizedRecordIsShort(ar, pos, ino, e);
    }
  }

  // --------------------------------------------------------------- archives

  predicate Gives(read: nat -> Option<(Item, nat)>, len: nat, pos: nat, item: Item, next: nat) {
    pos < next <= len && read(pos) == Some((item, next))
  }

  /** At `pos` the reader gives `item`, which is no trailer, and goes on to `next`; or it
      gives something else, or a trailer. */
  predicate Answers(
    read: nat -> Option<(Item, nat)>, len: nat, pos: nat, item: Item, next: nat, good: bool)
  {
    if good then Gives(read, len, pos, item, next) && item.name != TRAILER
    else !ReadsAs(read(pos), item) || item.name == TRAILER
  }

  lemma CollectsOne(
    read: nat -> Option<(Item, nat)>, ends: nat -> bool, len: nat, pos: nat, next: nat, want: seq<Item>, good: bool)
    requires want != [] && Answers(read, len, pos, want[0], next, good)
    ensures Collect(read, ends, len, pos) == Some(want) <==> good && Collect(read, ends, len, next) == Some(want[1..])
  {
    assert want == [want[0]] + want[1..];
    match read(pos)
    case None =>
    case Some((item, behind)) =>
      if Collect(read, ends, len, behind).Some? {
        var items := Collect(read, ends, len, behind).value;
        assert ([item] + items)[0] == item && ([item] + items)[1..] == items;
      }
  }

  /** The positions `at`, where the reader answers for each item wanted and then gives the
      trailer, with what is allowed behind it. */
  predicate AnswersAll(
    read: nat -> Option<(Item, nat)>, ends: nat -> bool, len: nat, at: seq<nat>, want: seq<Item>, good: seq<bool>)
  {
    && |at| == |want| + 1 && |good| == |want|
    && (forall i :: 0 <= i < |want| ==> Answers(read, len, at[i], want[i], at[i + 1], good[i]))
    && read(at[|want|]).Some? && read(at[|want|]).value.0.name == TRAILER && ends(read(at[|want|]).value.1)
  }

  predicate AllTrue(good: seq<bool>, k: nat) { forall i :: k <= i < |good| ==> good[i] }

  /** The result is what is wanted exactly when every answer is good. */
  lemma {:induction false} Collects(
    read: nat -> Option<(Item, nat)>, ends: nat -> bool, len: nat, at: seq<nat>, want: seq<Item>, good: seq<bool>,
    k: nat)
    requires AnswersAll(read, ends, len, at, want, good) && k <= |want|
    ensures Collect(read, ends, len, at[k]) == Some(want[k..]) <==> AllTrue(good, k)
    decreases |want| - k
  {
    if k < |want| {
      hide Collect;
      Collects(read, ends, len, at, want, good, k + 1);
      assert Answers(read, len, at[k], want[k], at[k + 1], good[k]);
      CollectsOne(read, ends, len, at[k], at[k + 1], want[k..], good[k]);
      assert want[k..][1..] == want[k + 1..];
      assert AllTrue(good, k) <==> good[k] && AllTrue(good, k + 1);
    } else {
      assert want[k..] == [];
    }
  }

  lemma {:induction false} JoinedHolds(ar: seq<byte>, part: nat -> seq<byte>, n: nat, k: nat)
    requires Has(ar, 0, Joined(part, n)) && k < n
    ensures Has(ar, |Joined(part, k)|, part(k))
  {
    HasParts(ar, 0, Joined(part, n - 1), part(n - 1));
    if k < n - 1 { JoinedHolds(ar, part, n - 1, k); }
  }

  lemma {:induction false} JoinedAligned(part: nat -> seq<byte>, n: nat)
    requires forall k :: 0 <= k < n ==> |part(k)| % 4 == 0
    ensures |Joined(part, n)| % 4 == 0
  {
    if n > 0 { JoinedAligned(part, n - 1); }
  }

  /** An entry a reader sees as it was given: the sizes fit the header, and the name holds
      no NUL and is not the trailer's. */
  predicate IsPlain(e: Entry) { IsSized(e) && 0 !in e.name && e.name != TRAILER }

  predicate AllPlain(entries: seq<Entry>) { forall i :: 0 <= i < |entries| ==> IsPlain(entries[i]) }

  /** What a reader is to see of the entries. */
  function Items(entries: seq<Entry>): seq<Item> {
    seq(|entries|, i requires 0 <= i < |entries| => Expected(i + 1, entries[i]))
  }

  function Plain(entries: seq<Entry>): seq<bool> {
    seq(|entries|, i requires 0 <= i < |entries| => IsPlain(entries[i]))
  }

  /** Where the records start, the trailer's last. */
  function Starts(entries: seq<Entry>): (at: seq<nat>)
    ensures |at| == |entries| + 1
  {
    seq(|entries| + 1, i requires 0 <= i <= |entries| => |Joined(RecordOf(entries), i)|)
  }

  lemma StartsAligned(entries: seq<Entry>, k: nat)
    requires k <= |entries|
    ensures |Joined(RecordOf(entries), k)| % 4 == 0
  {
    var part := RecordOf(entries);
    forall i | 0 <= i < k ensures |part(i)| % 4 == 0 { LayoutLength(entries, i); }
    JoinedAligned(part, k);
  }

  lemma LayoutLength(entries: seq<Entry>, i: nat)
    requires i < |entries|
    ensures |RecordOf(entries)(i)| % 4 == 0 && |RecordOf(entries)(i)| > 0
  {
    var e := entries[i];
    assert RecordOf(entries)(i) == Layout(Header(i + 1, e), e.name, e.data);
  }

  /** Each record stands at its start, and the next one right behind it. */
  lemma RecordStands(ar: seq<byte>, entries: seq<Entry>, k: nat)
    requires Has(ar, 0, WithTrailer(entries)) && k < |entries|
    ensures var pos := Starts(entries)[k];
      && pos % 4 == 0 && Has(ar, pos, Record(k + 1, entries[k]))
      && pos < pos + |Record(k + 1, entries[k])| == Starts(entries)[k + 1] <= |ar|
  {
    hide Record, Has;
    var part := RecordOf(entries);
    HasParts(ar, 0, Records(entries), Record(|entries| + 1, TRAILER_ENTRY));
    JoinedHolds(ar, part, |entries|, k);
    StartsAligned(entries, k);
    LayoutLength(entries, k);
    HasFits(ar, Starts(entries)[k], part(k));
  }

  lemma EntryAnswers(ar: seq<byte>, entries: seq<Entry>, k: nat)
    requires Has(ar, 0, WithTrailer(entries)) && k < |entries|
    ensures Answers(Reader(ar), |ar|, Starts(entries)[k], Items(entries)[k], Starts(entries)[k + 1], Plain(entries)[k])
  {
    hide Record, ReadEntry, Has, IsSized, Expected, Starts, WithTrailer;
    RecordStands(ar, entries, k);
    RecordReads(ar, Starts(entries)[k], k + 1, entries[k]);
    assert Expected(k + 1, entries[k]).name == entries[k].name by { ExpectedName(k + 1, entries[k]); }
  }

  lemma ExpectedName(ino: int, e: Entry)
    ensures Expected(ino, e).name == e.name
  {
  }

  lemma HasFits(ar: seq<byte>, pos: nat, s: seq<byte>)
    requires Has(ar, pos, s)
    ensures pos + |s| <= |ar|
  {
  }

  lemma TrailerGives(ar: seq<byte>, entries: seq<Entry>)
    requires Has(ar, 0, WithTrailer(entries))
    ensures var r := ReadEntry(ar, |Records(entries)|);
      r.Some? && r.value.0.name == TRAILER && r.value.1 == |WithTrailer(entries)|
  {
    hide Record, ReadEntry, Has;
    HasParts(ar, 0, Records(entries), Record(|entries| + 1, TRAILER_ENTRY));
    StartsAligned(entries, |entries|);
    SizedRecordReads(ar, |Records(entries)|, |entries| + 1, TRAILER_ENTRY);
    CStringCuts(TRAILER);
  }

  lemma PaddedEnds(s: seq<byte>)
    ensures Has(Padded(s), 0, s) && IsZeroed(Padded(s), |s|, |Padded(s)|)
  {
    assert Padded(s)[|s|..] == BlockPadding(|s|);
  }

  lemma PlainIsTrue(entries: seq<Entry>)
    ensures AllPlain(entries) <==> AllTrue(Plain(entries), 0)
  {
    hide IsPlain;
    assert forall i :: 0 <= i < |entries| ==> Plain(entries)[i] == IsPlain(entries[i]);
  }

  lemma ArchiveAnswers(ar: seq<byte>, entries: seq<Entry>)
    requires Has(ar, 0, WithTrailer(entries)) && IsZeroed(ar, |WithTrailer(entries)|, |ar|)
    ensures AnswersAll(Reader(ar), Ends(ar), |ar|, Starts(entries), Items(entries), Plain(entries))
  {
    var at, want := Starts(entries), Items(entries);
    hide ReadEntry, WithTrailer, IsPlain, Answers, Has, IsZeroed;
    forall i | 0 <= i < |want| ensures Answers(Reader(ar), |ar|, at[i], want[i], at[i + 1], Plain(entries)[i]) {
      EntryAnswers(ar, entries, i);
    }
    TrailerGives(ar, entries);
  }

  /** An archive reads back as its entries, in order and nothing else, exactly when every
      size fits its field and no name holds a NUL or is the trailer's. */
  lemma ArchiveReadsBack(entries: seq<Entry>)
    ensures ReadAll(Archive(entries)) == Some(Items(entries)) <==> AllPlain(entries)
  {
    var ar, at, want, good := Archive(entries), Starts(entries), Items(entries), Plain(entries);
    PaddedEnds(WithTrailer(entries));
    hide WithTrailer, Padded, Has, IsZeroed, AllPlain, AllTrue, Plain, AnswersAll, Collect, Reader, Ends;
    ArchiveAnswers(ar, entries);
    Collects(Reader(ar), Ends(ar), |ar|, at, want, good, 0);
    PlainIsTrue(entries);
    assert want[0..] == want && at[0] == 0;
  }

  /** An entry that bears the trailer's name ends the archive for its reader. */
  lemma TrailerNameIsLost()
    ensures ReadAll(Archive([TRAILER_ENTRY])) != Some(Items([TRAILER_ENTRY]))
  {
    hide ReadAll, Archive, Items;
    ArchiveReadsBack([TRAILER_ENTRY]);
    assert !IsPlain([TRAILER_ENTRY][0]);
  }
}
