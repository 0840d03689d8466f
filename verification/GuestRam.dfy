/** Guest RAM in memory: the regions, over the bytes of the object that backs them. */
module GuestRam {
  import opened Base
  import opened RamLayout
  import opened FlatRam
  import opened RamScan

  class Ram {
    /** In address order. */
    const regions: seq<Region>
    const backing: array<byte>

    ghost predicate Valid() { Placed(regions, backing.Length) }

    /** The memory the guest sees. */
    ghost function Memory(): map<int, byte>
      requires Valid()
      reads backing
    {
      Flat(regions, backing[..])
    }

    constructor (regions: seq<Region>, backing: array<byte>)
      requires Placed(regions, backing.Length)
      ensures Valid() && this.regions == regions && this.backing == backing
    {
      this.regions := regions;
      this.backing := backing;
    }

    /** Whether the range lies inside one region. */
    method Contains(gpa: nat, len: nat) returns (inside: bool)
      requires Valid() && gpa <= U64_MAX && len <= U64_MAX
      ensures inside <==> InOneRegion(regions, gpa, len)
    {
      SizesFit(regions, backing.Length);
      FoundExactlyInOneRegion(regions, gpa, len);
      inside := Find(regions, gpa, len).Some?;
    }

    method CopyTo(at: nat, buf: array<byte>)
      requires at + buf.Length <= backing.Length && buf != backing
      modifies buf
      ensures buf[..] == backing[..][at..at + buf.Length]
    {
      forall m | 0 <= m < buf.Length { buf[m] := backing[at + m]; }
    }

    /** Copies memory into `buf`. A refused range leaves `buf` as it was. */
    method Read(gpa: nat, buf: array<byte>) returns (ok: bool)
      requires Valid() && gpa <= U64_MAX && buf.Length <= U64_MAX && buf != backing
      modifies buf
      ensures ok <==> InOneRegion(regions, gpa, buf.Length)
      ensures ok ==> Spells(Memory(), gpa, buf[..])
      ensures !ok ==> buf[..] == old(buf[..])
    {
      hide Find, InOneRegion, Spells, Flat, Mirrors, Placed;
      FlatMirrors(regions, backing[..]);
      FoundReads(regions, backing[..], Memory(), gpa, buf.Length);
      var found := Find(regions, gpa, buf.Length);
      ok := found.Some?;
      if ok {
        var at := regions[found.value.0].fileOffset + found.value.1;
        CopyTo(at, buf);
      }
    }

    /** Copies `data` into memory. A refused range changes nothing. */
    method Write(gpa: nat, data: seq<byte>) returns (ok: bool)
      requires Valid() && gpa <= U64_MAX && |data| <= U64_MAX
      modifies backing
      ensures ok <==> InOneRegion(regions, gpa, |data|)
      ensures backing[..] == FlatRam.Write(regions, old(backing[..]), gpa, data)
      ensures !ok ==> backing[..] == old(backing[..])
      ensures FilesApart(regions) ==>
        Memory() == if ok then FlatWrite(old(Memory()), gpa, data) else old(Memory())
    {
      ghost var before := backing[..];
      SizesFit(regions, backing.Length);
      FoundExactlyInOneRegion(regions, gpa, |data|);
      match Find(regions, gpa, |data|) {
        case None =>
          ok := false;
        case Some((i, offset)) =>
          assert Fits(regions[i], backing.Length);
          var at := regions[i].fileOffset + offset;
          forall m | 0 <= m < |data| { backing[at + m] := data[m]; }
          assert backing[..] == Written(before, at, data);
          ok := true;
      }
      if FilesApart(regions) { WriteIsFlat(regions, before, gpa, data); }
    }

    /** The addresses of the first matches of `needle`. */
    method Scan(needle: seq<byte>) returns (out: seq<nat>)
      requires Valid()
      ensures out == Reported(regions, backing[..], needle)
    {
      out := [];
      if needle == [] { return; }
      ghost var found := MatchesOf(regions, backing[..], needle);
      for k := 0 to |regions|
        invariant Matches(regions, backing[..], needle) == out + Addresses(regions, found, k) && |out| < LIMIT
      {
        assert Fits(regions[k], backing.Length);
        var hay := backing[regions[k].fileOffset..regions[k].fileOffset + regions[k].size];
        assert hay == Content(regions[k], backing[..]);
        ghost var before := out;
        out := ScanRegion(hay, regions[k].gpa, needle, out);
        assert Addresses(regions, found, k) == Shift(regions[k].gpa, found[k]) + Addresses(regions, found, k + 1);
        FirstOfMore(before, Shift(regions[k].gpa, found[k]), Addresses(regions, found, k + 1));
        if |out| >= LIMIT { return; }
      }
    }
  }

  /** The search of one region, behind the addresses found before it. */
  method ScanRegion(hay: seq<byte>, gpa: nat, needle: seq<byte>, before: seq<nat>) returns (out: seq<nat>)
    requires needle != [] && |before| < LIMIT
    ensures out == First(before + Shift(gpa, Greedy(Hits(hay, needle), |needle|, |hay|, 0)))
  {
    out := before;
    ghost var hit := Hits(hay, needle);
    ghost var all := before + Shift(gpa, Greedy(hit, |needle|, |hay|, 0));
    var i := 0;
    while i + |needle| <= |hay|
      invariant |out| < LIMIT
      invariant all == out + Shift(gpa, Greedy(hit, |needle|, |hay|, i))
    {
      if hay[i] == needle[0] && hay[i..i + |needle|] == needle {
        Later(out, gpa, i, Greedy(hit, |needle|, |hay|, i + |needle|));
        out := out + [gpa + i];
        if |out| >= LIMIT { return; }
        i := i + |needle|;
      } else {
        assert !MatchAt(hay, needle, i);
        i := i + 1;
      }
    }
  }

  lemma Later(out: seq<nat>, base: nat, i: nat, more: seq<nat>)
    ensures out + Shift(base, [i] + more) == out + [base + i] + Shift(base, more)
  {
    assert Shift(base, [i] + more) == [base + i] + Shift(base, more);
  }

  lemma FirstOfMore(out: seq<nat>, here: seq<nat>, rest: seq<nat>)
    ensures |out + here| < LIMIT ==> First(out + here) == out + here
    ensures |out + here| >= LIMIT ==> |First(out + here)| == LIMIT && First(out + here + rest) == First(out + here)
    ensures out + (here + rest) == out + here + rest
  {
  }

  lemma SliceOfSlice(s: seq<byte>, lo: nat, hi: nat, a: nat, b: nat)
    requires lo <= hi <= |s| && a <= b <= hi - lo
    ensures s[lo..hi][a..b] == s[lo + a..lo + b]
  {
    var x, y := s[lo..hi][a..b], s[lo + a..lo + b];
    assert |x| == |y| && forall k :: 0 <= k < |x| ==> x[k] == y[k];
  }

  lemma RangeSpells(flat: map<int, byte>, r: Region, bytes: seq<byte>, offset: nat, n: nat)
    requires Fits(r, |bytes|) && Spells(flat, r.gpa, Content(r, bytes)) && offset + n <= r.size
    ensures var at := r.fileOffset + offset; Spells(flat, r.gpa + offset, bytes[at..at + n])
  {
    SpellsPart(flat, r.gpa, Content(r, bytes), offset, n);
    SliceOfSlice(bytes, r.fileOffset, r.fileOffset + r.size, offset, offset + n);
  }

  /** What a read of a range that is found copies is what the memory reads there. */
  lemma FoundReads(rs: seq<Region>, bytes: seq<byte>, flat: map<int, byte>, gpa: nat, n: nat)
    requires Placed(rs, |bytes|) && Mirrors(rs, bytes, flat) && gpa <= U64_MAX && n <= U64_MAX
    ensures Find(rs, gpa, n).Some? <==> InOneRegion(rs, gpa, n)
    ensures Find(rs, gpa, n).Some? ==>
      var at := rs[Find(rs, gpa, n).value.0].fileOffset + Find(rs, gpa, n).value.1;
      at + n <= |bytes| && Spells(flat, gpa, bytes[at..at + n])
  {
    SizesFit(rs, |bytes|);
    FoundExactlyInOneRegion(rs, gpa, n);
    if Find(rs, gpa, n).Some? {
      var i, offset := Find(rs, gpa, n).value.0, Find(rs, gpa, n).value.1;
      assert Fits(rs[i], |bytes|);
      RangeSpells(flat, rs[i], bytes, offset, n);
    }
  }

  /** Start, size and place in the object are multiples of 1 MiB. */
  predicate IsWhole(r: Region) {
    r.gpa % (1024 * 1024) == 0 && r.size % (1024 * 1024) == 0 && r.fileOffset % (1024 * 1024) == 0
  }

  /** Maps `list`, given in any order, over `backing`. It is refused exactly when it is
      empty, or a region cannot be mapped, or two overlap. */
  method Map(list: seq<Region>, backing: array<byte>) returns (ram: Option<Ram>)
    ensures ram.Some? <==>
      && list != [] && AllApart(list)
      && (forall i :: 0 <= i < |list| ==> IsWhole(list[i]) && Fits(list[i], backing.Length))
    ensures ram.Some? ==>
      && fresh(ram.value) && ram.value.Valid() && ram.value.backing == backing
      && multiset(ram.value.regions) == multiset(list)
  {
    for i := 0 to |list|
      invariant forall j :: 0 <= j < i ==> IsMappable(list[j], backing.Length)
    {
      if !IsMappable(list[i], backing.Length) { return None; }
    }
    AcceptedExactlyWhenApart(list);
    match Build(list)
    case None => ram := None;
    case Some(sorted) =>
      forall i | 0 <= i < |sorted| ensures Fits(sorted[i], backing.Length) {
        assert sorted[i] in multiset(list);
      }
      var r := new Ram(sorted, backing);
      ram := Some(r);
  }
}
