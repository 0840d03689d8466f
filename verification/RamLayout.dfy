/** The placement of guest RAM: regions of guest-physical addresses, each backed by a
    range of one object. */
module RamLayout {
  import opened Base

  const U64_MAX: int := 0xffff_ffff_ffff_ffff

  /** The alignment of every field of a region, 1 MiB. */
  const ALIGN: nat := 0x10_0000

  datatype Region = Region(gpa: nat, size: nat, fileOffset: nat)

  /** What mapping a region checks, against an object of `objectLen` bytes. */
  predicate IsMappable(r: Region, objectLen: nat) { IsAligned(r) && Fits(r, objectLen) }

  predicate IsAligned(r: Region) { r.gpa % ALIGN == 0 && r.size % ALIGN == 0 && r.fileOffset % ALIGN == 0 }

  predicate Fits(r: Region, objectLen: nat) {
    && r.size > 0
    && r.fileOffset + r.size <= objectLen
    && r.gpa + r.size <= U64_MAX
  }

  predicate Holds(r: Region, a: int) { r.gpa <= a < r.gpa + r.size }

  predicate Apart(r: Region, q: Region) { r.gpa + r.size <= q.gpa || q.gpa + q.size <= r.gpa }

  predicate EndsBefore(r: Region, q: Region) { r.gpa + r.size <= q.gpa }

  /** The regions in address order and apart. */
  predicate Ascending(rs: seq<Region>) {
    forall i, j :: 0 <= i < j < |rs| ==> EndsBefore(rs[i], rs[j])
  }

  predicate AllApart(rs: seq<Region>) {
    forall i, j :: 0 <= i < j < |rs| ==> Apart(rs[i], rs[j])
  }

  predicate NonEmpty(rs: seq<Region>) { forall i :: 0 <= i < |rs| ==> rs[i].size > 0 }

  predicate SortedByGpa(rs: seq<Region>) {
    forall i, j :: 0 <= i < j < |rs| ==> rs[i].gpa <= rs[j].gpa
  }

  /** How many regions of a sorted list start no later than `r`. */
  function Place(rs: seq<Region>, r: Region): (k: nat)
    requires SortedByGpa(rs)
    ensures k <= |rs|
    ensures forall i :: 0 <= i < k ==> rs[i].gpa <= r.gpa
    ensures forall i :: k <= i < |rs| ==> r.gpa < rs[i].gpa
  {
    if rs == [] || rs[|rs| - 1].gpa <= r.gpa then |rs| else Place(rs[..|rs| - 1], r)
  }

  /** Region `r` put into a sorted list, after those that start where it does. */
  function Insert(rs: seq<Region>, r: Region): (out: seq<Region>)
    requires SortedByGpa(rs)
    ensures SortedByGpa(out) && multiset(out) == multiset(rs) + multiset{r}
  {
    var k := Place(rs, r);
    assert rs == rs[..k] + rs[k..];
    rs[..k] + [r] + rs[k..]
  }

  /** The stable sort of the regions by their start. */
  function Sort(rs: seq<Region>): (out: seq<Region>)
    ensures SortedByGpa(out) && multiset(out) == multiset(rs)
  {
    if rs == [] then []
    else
      assert rs == rs[..|rs| - 1] + [rs[|rs| - 1]];
      Insert(Sort(rs[..|rs| - 1]), rs[|rs| - 1])
  }

  /** Whether each region of a sorted list ends before the next starts. */
  predicate NoOverlap(rs: seq<Region>) {
    forall i :: 0 <= i < |rs| - 1 ==> rs[i].gpa + rs[i].size <= rs[i + 1].gpa
  }

  /** The regions in address order, unless there are none or two overlap. */
  function Build(rs: seq<Region>): Option<seq<Region>> {
    var sorted := Sort(rs);
    if sorted != [] && NoOverlap(sorted) then Some(sorted) else None
  }

  lemma {:induction false} NeighboursApart(rs: seq<Region>, i: nat, j: nat)
    requires NoOverlap(rs) && i < j < |rs|
    ensures EndsBefore(rs[i], rs[j])
  {
    if i < j - 1 { NeighboursApart(rs, i, j - 1); }
  }

  /** Being apart is a property of the regions, not of their order. */
  predicate ApartAsBag(m: multiset<Region>) {
    && (forall r, q :: r in m && q in m && r != q ==> Apart(r, q))
    && (forall r :: r in m ==> m[r] == 1)
  }

  lemma {:induction false} TwoPlaces(rs: seq<Region>, r: Region) returns (i: nat, j: nat)
    requires multiset(rs)[r] >= 2
    ensures i < j < |rs| && rs[i] == rs[j] == r
  {
    var before := rs[..|rs| - 1];
    assert rs == before + [rs[|rs| - 1]];
    if rs[|rs| - 1] == r {
      assert r in before;
      i :| i < |before| && before[i] == r;
      j := |rs| - 1;
    } else {
      i, j := TwoPlaces(before, r);
    }
  }

  lemma CountedTwice(rs: seq<Region>, i: nat, j: nat)
    requires i < j < |rs| && rs[i] == rs[j]
    ensures multiset(rs)[rs[i]] >= 2
  {
    assert rs == rs[..j] + rs[j..];
    assert rs[..j][i] in multiset(rs[..j]) && rs[j..][0] in multiset(rs[j..]);
  }

  lemma ApartIsOrderFree(rs: seq<Region>)
    requires NonEmpty(rs)
    ensures AllApart(rs) <==> ApartAsBag(multiset(rs))
  {
    var m := multiset(rs);
    if AllApart(rs) {
      forall r | r in m ensures m[r] == 1 {
        if m[r] >= 2 {
          var i, j := TwoPlaces(rs, r);
          assert false;
        }
      }
    } else {
      var i, j :| 0 <= i < j < |rs| && !Apart(rs[i], rs[j]);
      if rs[i] == rs[j] { CountedTwice(rs, i, j); }
      assert rs[i] in m && rs[j] in m;
    }
  }

  /** A list of regions is accepted, in any order, exactly when it has one and no two
      overlap, and the result is the same regions in address order, apart. */
  lemma AcceptedExactlyWhenApart(rs: seq<Region>)
    requires NonEmpty(rs)
    ensures Build(rs).Some? <==> rs != [] && AllApart(rs)
    ensures Build(rs).Some? ==>
      && multiset(Build(rs).value) == multiset(rs) && Ascending(Build(rs).value)
  {
    var sorted := Sort(rs);
    assert |sorted| == |multiset(sorted)| == |rs|;
    forall i | 0 <= i < |sorted| ensures sorted[i].size > 0 { assert sorted[i] in multiset(rs); }
    ApartIsOrderFree(rs);
    ApartIsOrderFree(sorted);
    if NoOverlap(sorted) {
      forall i, j | 0 <= i < j < |sorted| ensures EndsBefore(sorted[i], sorted[j]) { NeighboursApart(sorted, i, j); }
    }
    if AllApart(sorted) {
      forall i | 0 <= i < |sorted| - 1 ensures sorted[i].gpa + sorted[i].size <= sorted[i + 1].gpa {
        assert Apart(sorted[i], sorted[i + 1]);
      }
    }
  }

  // ------------------------------------------------------------- lookup

  /** The first region that holds all of `[gpa, gpa + len)`, and the offset in it.
      The arithmetic is 64-bit and checked. */
  function Find(rs: seq<Region>, gpa: nat, len: nat): (found: Option<(nat, nat)>)
    requires gpa <= U64_MAX && len <= U64_MAX
    ensures found.Some? ==>
      && found.value.0 < |rs| && rs[found.value.0].gpa + found.value.1 == gpa
      && found.value.1 + len <= rs[found.value.0].size
  {
    if rs == [] then None
    else if rs[0].gpa <= gpa && (gpa - rs[0].gpa) + len <= U64_MAX && (gpa - rs[0].gpa) + len <= rs[0].size then
      Some((0, gpa - rs[0].gpa))
    else match Find(rs[1..], gpa, len)
      case None => None
      case Some((i, offset)) => Some((i + 1, offset))
  }

  /** One region holds the whole range. */
  predicate InOneRegion(rs: seq<Region>, gpa: nat, len: nat) {
    exists i :: 0 <= i < |rs| && rs[i].gpa <= gpa && gpa + len <= rs[i].gpa + rs[i].size
  }

  /** A range is found exactly when one region holds all of it: one in a hole, across
      two regions or past the end of the address space is refused. */
  lemma {:induction false} FoundExactlyInOneRegion(rs: seq<Region>, gpa: nat, len: nat)
    requires gpa <= U64_MAX && len <= U64_MAX
    requires forall i :: 0 <= i < |rs| ==> rs[i].size <= U64_MAX
    ensures Find(rs, gpa, len).Some? <==> InOneRegion(rs, gpa, len)
  {
    if rs != [] {
      FoundExactlyInOneRegion(rs[1..], gpa, len);
      if i :| 0 <= i < |rs| && rs[i].gpa <= gpa && gpa + len <= rs[i].gpa + rs[i].size {
        if i > 0 { assert rs[1..][i - 1] == rs[i]; }
      }
      if InOneRegion(rs[1..], gpa, len) {
        var i :| 0 <= i < |rs[1..]| && rs[1..][i].gpa <= gpa && gpa + len <= rs[1..][i].gpa + rs[1..][i].size;
        assert rs[i + 1] == rs[1..][i];
      }
    }
  }
}
