/** What a scan of guest RAM reports: the leftmost matches that do not overlap, region
    by region. */
module RamScan {
  import opened Base
  import opened RamLayout
  import opened FlatRam

  /** The most matches a scan reports. */
  const LIMIT: nat := 64

  // ------------------------------------------------------------ one region

  /** The hits from `i` on in `len` places, each search resuming `width` behind the hit
      before. */
  function Greedy(hit: nat -> bool, width: nat, len: nat, i: nat): seq<nat>
    requires width > 0
    decreases len - i
  {
    if i + width > len then []
    else if hit(i) then [i] + Greedy(hit, width, len, i + width)
    else Greedy(hit, width, len, i + 1)
  }

  /** Position `p` lies in one of the stretches that start at `at`. */
  ghost predicate Covered(at: seq<nat>, width: nat, p: nat) {
    exists k :: 0 <= k < |at| && at[k] <= p < at[k] + width
  }

  predicate Ascends(at: seq<nat>, width: nat) {
    forall k, m :: 0 <= k < m < |at| ==> at[k] + width <= at[m]
  }

  /** The list `at` is the leftmost choice of hits from `i` on: hits only, apart, and none
      left out that does not start inside one taken before it. */
  ghost predicate Leftmost(hit: nat -> bool, width: nat, len: nat, i: nat, at: seq<nat>) {
    && (forall k :: 0 <= k < |at| ==> i <= at[k] && at[k] + width <= len && hit(at[k]))
    && Ascends(at, width)
    && (forall p: nat :: i <= p && p + width <= len && hit(p) ==> Covered(at, width, p))
  }

  lemma {:induction false} GreedyHits(hit: nat -> bool, width: nat, len: nat, i: nat, x: nat)
    requires width > 0 && x < |Greedy(hit, width, len, i)|
    ensures var p := Greedy(hit, width, len, i)[x]; i <= p && p + width <= len && hit(p)
    decreases len - i
  {
    if !hit(i) {
      GreedyHits(hit, width, len, i + 1, x);
    } else if x > 0 {
      GreedyHits(hit, width, len, i + width, x - 1);
    }
  }

  lemma {:induction false} GreedyAscends(hit: nat -> bool, width: nat, len: nat, i: nat, x: nat, y: nat)
    requires width > 0 && x < y < |Greedy(hit, width, len, i)|
    ensures Greedy(hit, width, len, i)[x] + width <= Greedy(hit, width, len, i)[y]
    decreases len - i
  {
    if !hit(i) {
      GreedyAscends(hit, width, len, i + 1, x, y);
    } else if x > 0 {
      GreedyAscends(hit, width, len, i + width, x - 1, y - 1);
    } else {
      GreedyHits(hit, width, len, i + width, y - 1);
    }
  }

  lemma {:induction false} GreedyCovers(hit: nat -> bool, width: nat, len: nat, i: nat, p: nat) returns (x: nat)
    requires width > 0 && i <= p && p + width <= len && hit(p)
    ensures x < |Greedy(hit, width, len, i)|
    ensures Greedy(hit, width, len, i)[x] <= p < Greedy(hit, width, len, i)[x] + width
    decreases len - i
  {
    if !hit(i) {
      x := GreedyCovers(hit, width, len, i + 1, p);
    } else if p < i + width {
      x := 0;
    } else {
      x := GreedyCovers(hit, width, len, i + width, p);
      x := x + 1;
    }
  }

  lemma GreedyIsLeftmost(hit: nat -> bool, width: nat, len: nat, i: nat)
    requires width > 0
    ensures Leftmost(hit, width, len, i, Greedy(hit, width, len, i))
  {
    var at := Greedy(hit, width, len, i);
    forall x | 0 <= x < |at| ensures i <= at[x] && at[x] + width <= len && hit(at[x]) {
      GreedyHits(hit, width, len, i, x);
    }
    forall x, y | 0 <= x < y < |at| ensures at[x] + width <= at[y] {
      GreedyAscends(hit, width, len, i, x, y);
    }
    forall p: nat | i <= p && p + width <= len && hit(p) ensures Covered(at, width, p) {
      var x := GreedyCovers(hit, width, len, i, p);
    }
  }

  // -------------------------------------------------------- all the regions

  /** Positions as addresses, behind the start of their region. */
  function Shift(base: nat, at: seq<nat>): (s: seq<nat>)
    ensures |s| == |at| && forall k :: 0 <= k < |s| ==> s[k] == base + at[k]
  {
    seq(|at|, k requires 0 <= k < |at| => base + at[k])
  }

  /** The addresses found in the regions from number `k` on. */
  function Addresses(rs: seq<Region>, found: seq<seq<nat>>, k: nat): seq<nat>
    requires |found| == |rs| && k <= |rs|
    decreases |rs| - k
  {
    if k == |rs| then [] else Shift(rs[k].gpa, found[k]) + Addresses(rs, found, k + 1)
  }

  predicate Within(r: Region, at: seq<nat>, width: nat) {
    Ascends(at, width) && forall x :: 0 <= x < |at| ==> at[x] + width <= r.size
  }

  predicate AllWithin(rs: seq<Region>, found: seq<seq<nat>>, width: nat) {
    |found| == |rs| && forall k :: 0 <= k < |rs| ==> Within(rs[k], found[k], width)
  }

  /** Which region, and which position in it, an address comes from. */
  lemma {:induction false} ComesFrom(rs: seq<Region>, found: seq<seq<nat>>, k: nat, x: nat) returns (i: nat, y: nat)
    requires |found| == |rs| && k <= |rs| && x < |Addresses(rs, found, k)|
    ensures k <= i < |rs| && y < |found[i]| && Addresses(rs, found, k)[x] == rs[i].gpa + found[i][y]
    decreases |rs| - k
  {
    if x < |found[k]| {
      i, y := k, x;
    } else {
      i, y := ComesFrom(rs, found, k + 1, x - |found[k]|);
    }
  }

  lemma {:induction false} IsListed(rs: seq<Region>, found: seq<seq<nat>>, k: nat, i: nat, y: nat) returns (x: nat)
    requires |found| == |rs| && k <= i < |rs| && y < |found[i]|
    ensures x < |Addresses(rs, found, k)| && Addresses(rs, found, k)[x] == rs[i].gpa + found[i][y]
    decreases |rs| - k
  {
    if i == k {
      x := y;
    } else {
      x := IsListed(rs, found, k + 1, i, y);
      x := x + |found[k]|;
    }
  }

  lemma {:induction false} AddressesAscend(rs: seq<Region>, found: seq<seq<nat>>, width: nat, k: nat, x: nat, y: nat)
    requires Ascending(rs) && AllWithin(rs, found, width) && k <= |rs| && x < y < |Addresses(rs, found, k)|
    ensures Addresses(rs, found, k)[x] + width <= Addresses(rs, found, k)[y]
    decreases |rs| - k
  {
    assert Within(rs[k], found[k], width);
    var n := |found[k]|;
    if x >= n {
      AddressesAscend(rs, found, width, k + 1, x - n, y - n);
    } else if y >= n {
      var i, _ := ComesFrom(rs, found, k + 1, y - n);
      assert EndsBefore(rs[k], rs[i]);
    }
  }

  // ------------------------------------------------------------ the matches

  predicate MatchAt(hay: seq<byte>, needle: seq<byte>, i: nat) {
    i + |needle| <= |hay| && hay[i..i + |needle|] == needle
  }

  function Hits(hay: seq<byte>, needle: seq<byte>): nat -> bool {
    (i: nat) => MatchAt(hay, needle, i)
  }

  function Content(r: Region, bytes: seq<byte>): (hay: seq<byte>)
    requires Fits(r, |bytes|)
    ensures |hay| == r.size
  {
    bytes[r.fileOffset..r.fileOffset + r.size]
  }

  function MatchesIn(r: Region, bytes: seq<byte>, needle: seq<byte>): seq<nat>
    requires Fits(r, |bytes|) && needle != []
  {
    Greedy(Hits(Content(r, bytes), needle), |needle|, r.size, 0)
  }

  function MatchesOf(rs: seq<Region>, bytes: seq<byte>, needle: seq<byte>): seq<seq<nat>>
    requires Placed(rs, |bytes|) && needle != []
  {
    seq(|rs|, k requires 0 <= k < |rs| => MatchesIn(rs[k], bytes, needle))
  }

  /** The addresses of all the matches. */
  function Matches(rs: seq<Region>, bytes: seq<byte>, needle: seq<byte>): seq<nat>
    requires Placed(rs, |bytes|) && needle != []
  {
    Addresses(rs, MatchesOf(rs, bytes, needle), 0)
  }

  function First(all: seq<nat>): seq<nat> { if |all| <= LIMIT then all else all[..LIMIT] }

  /** What a scan reports. */
  function Reported(rs: seq<Region>, bytes: seq<byte>, needle: seq<byte>): seq<nat>
    requires Placed(rs, |bytes|)
  {
    if needle == [] then [] else First(Matches(rs, bytes, needle))
  }

  // --------------------------------------------------- occurrences in memory

  ghost predicate Reads(flat: map<int, byte>, a: nat, b: byte) { a in flat && flat[a] == b }

  /** The memory reads `s` from address `a` on. */
  ghost predicate Spells(flat: map<int, byte>, a: nat, s: seq<byte>) {
    forall m :: 0 <= m < |s| ==> Reads(flat, a + m, s[m])
  }

  /** The memory reads the needle at `a`, within one region. */
  ghost predicate Occurs(rs: seq<Region>, flat: map<int, byte>, needle: seq<byte>, a: nat) {
    InOneRegion(rs, a, |needle|) && Spells(flat, a, needle)
  }

  /** The memory reads, in each region, what the object keeps for it. */
  ghost predicate Mirrors(rs: seq<Region>, bytes: seq<byte>, flat: map<int, byte>)
    requires Placed(rs, |bytes|)
  {
    forall i :: 0 <= i < |rs| ==> Fits(rs[i], |bytes|) && Spells(flat, rs[i].gpa, Content(rs[i], bytes))
  }

  lemma FlatMirrors(rs: seq<Region>, bytes: seq<byte>)
    requires Placed(rs, |bytes|)
    ensures Mirrors(rs, bytes, Flat(rs, bytes))
  {
    var flat := Flat(rs, bytes);
    forall i | 0 <= i < |rs| ensures Fits(rs[i], |bytes|) && Spells(flat, rs[i].gpa, Content(rs[i], bytes)) {
      assert Fits(rs[i], |bytes|);
      forall m | 0 <= m < rs[i].size ensures Reads(flat, rs[i].gpa + m, Content(rs[i], bytes)[m]) {
        FlatAt(rs, bytes, i, rs[i].gpa + m);
      }
    }
  }

  lemma SpellsPart(flat: map<int, byte>, base: nat, hay: seq<byte>, p: nat, n: nat)
    requires Spells(flat, base, hay) && p + n <= |hay|
    ensures Spells(flat, base + p, hay[p..p + n])
  {
    var part := hay[p..p + n];
    forall m | 0 <= m < n ensures Reads(flat, base + p + m, part[m]) {
      assert part[m] == hay[p + m];
    }
  }

  lemma SpellsOne(flat: map<int, byte>, a: nat, s: seq<byte>, t: seq<byte>)
    requires Spells(flat, a, s) && Spells(flat, a, t) && |s| == |t|
    ensures s == t
  {
    forall m | 0 <= m < |s| ensures s[m] == t[m] {
      assert Reads(flat, a + m, s[m]) && Reads(flat, a + m, t[m]);
    }
  }

  lemma MatchIsSpelled(flat: map<int, byte>, base: nat, hay: seq<byte>, needle: seq<byte>, p: nat)
    requires Spells(flat, base, hay) && p + |needle| <= |hay|
    ensures MatchAt(hay, needle, p) <==> Spells(flat, base + p, needle)
  {
    SpellsPart(flat, base, hay, p, |needle|);
    if Spells(flat, base + p, needle) {
      SpellsOne(flat, base + p, hay[p..p + |needle|], needle);
    }
  }

  lemma MatchOccurs(rs: seq<Region>, bytes: seq<byte>, flat: map<int, byte>, needle: seq<byte>, i: nat, y: nat)
    requires Placed(rs, |bytes|) && Mirrors(rs, bytes, flat)
    requires needle != [] && i < |rs| && Fits(rs[i], |bytes|) && y < |MatchesIn(rs[i], bytes, needle)|
    ensures Occurs(rs, flat, needle, rs[i].gpa + MatchesIn(rs[i], bytes, needle)[y])
  {
    var p, hay := MatchesIn(rs[i], bytes, needle)[y], Content(rs[i], bytes);
    GreedyHits(Hits(hay, needle), |needle|, rs[i].size, 0, y);
    MatchIsSpelled(flat, rs[i].gpa, hay, needle, p);
  }

  lemma MatchesOccur(rs: seq<Region>, bytes: seq<byte>, flat: map<int, byte>, needle: seq<byte>, x: nat)
    requires Placed(rs, |bytes|) && Mirrors(rs, bytes, flat)
    requires needle != [] && x < |Matches(rs, bytes, needle)|
    ensures Occurs(rs, flat, needle, Matches(rs, bytes, needle)[x])
  {
    var i, y := ComesFrom(rs, MatchesOf(rs, bytes, needle), 0, x);
    MatchOccurs(rs, bytes, flat, needle, i, y);
  }

  lemma AscendAt(rs: seq<Region>, bytes: seq<byte>, needle: seq<byte>, x: nat, y: nat)
    requires Placed(rs, |bytes|) && needle != [] && x < y < |Matches(rs, bytes, needle)|
    ensures Matches(rs, bytes, needle)[x] + |needle| <= Matches(rs, bytes, needle)[y]
  {
    var found := MatchesOf(rs, bytes, needle);
    forall k | 0 <= k < |rs| ensures Within(rs[k], found[k], |needle|) {
      assert Fits(rs[k], |bytes|);
      GreedyIsLeftmost(Hits(Content(rs[k], bytes), needle), |needle|, rs[k].size, 0);
    }
    AddressesAscend(rs, found, |needle|, 0, x, y);
  }

  lemma MatchesCover(rs: seq<Region>, bytes: seq<byte>, flat: map<int, byte>, needle: seq<byte>, a: nat)
    requires Placed(rs, |bytes|) && Mirrors(rs, bytes, flat)
    requires needle != [] && Occurs(rs, flat, needle, a)
    ensures Covered(Matches(rs, bytes, needle), |needle|, a)
  {
    var i :| 0 <= i < |rs| && rs[i].gpa <= a && a + |needle| <= rs[i].gpa + rs[i].size;
    var p, hay := a - rs[i].gpa, Content(rs[i], bytes);
    MatchIsSpelled(flat, rs[i].gpa, hay, needle, p);
    var y := GreedyCovers(Hits(hay, needle), |needle|, rs[i].size, 0, p);
    var x := IsListed(rs, MatchesOf(rs, bytes, needle), 0, i, y);
  }

  lemma ReportedCover(rs: seq<Region>, bytes: seq<byte>, flat: map<int, byte>, needle: seq<byte>, a: nat)
    requires Placed(rs, |bytes|) && Mirrors(rs, bytes, flat)
    requires needle != [] && Occurs(rs, flat, needle, a)
    requires var out := Reported(rs, bytes, needle); |out| < LIMIT || a < out[LIMIT - 1] + |needle|
    ensures Covered(Reported(rs, bytes, needle), |needle|, a)
  {
    var all, out := Matches(rs, bytes, needle), Reported(rs, bytes, needle);
    MatchesCover(rs, bytes, flat, needle, a);
    var x :| 0 <= x < |all| && all[x] <= a < all[x] + |needle|;
    if x >= LIMIT {
      AscendAt(rs, bytes, needle, LIMIT - 1, x);
      assert false;
    }
    assert out[x] == all[x];
  }

  /** What a scan reports are occurrences in memory, each within one region, in ascending
      addresses and apart. At most 64 are reported. Every occurrence before the end of the
      last one reported starts inside one, and with fewer than 64 every one does. */
  lemma ScanReportsOccurrences(rs: seq<Region>, bytes: seq<byte>, needle: seq<byte>)
    requires Placed(rs, |bytes|) && needle != []
    ensures var out := Reported(rs, bytes, needle);
            && |out| <= 64 && Ascends(out, |needle|)
            && (forall x :: 0 <= x < |out| ==> Occurs(rs, Flat(rs, bytes), needle, out[x]))
            && (forall a: nat ::
                  && Occurs(rs, Flat(rs, bytes), needle, a)
                  && (|out| < 64 || a < out[63] + |needle|)
                  ==> Covered(out, |needle|, a))
  {
    var flat, out := Flat(rs, bytes), Reported(rs, bytes, needle);
    FlatMirrors(rs, bytes);
    forall x, y | 0 <= x < y < |out| ensures out[x] + |needle| <= out[y] {
      AscendAt(rs, bytes, needle, x, y);
    }
    forall x | 0 <= x < |out| ensures Occurs(rs, flat, needle, out[x]) {
      MatchesOccur(rs, bytes, flat, needle, x);
    }
    forall a: nat | Occurs(rs, flat, needle, a) && (|out| < LIMIT || a < out[LIMIT - 1] + |needle|)
      ensures Covered(out, |needle|, a)
    {
      ReportedCover(rs, bytes, flat, needle, a);
    }
  }
}
