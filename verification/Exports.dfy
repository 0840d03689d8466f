/** The check that no two exported directories disagree on write permission. */
module Exports {
  import opened Base

  /** A resolved path, by its components. */
  type Path = seq<string>

  datatype ShareMode = ReadOnly | ReadWrite

  datatype Share = Share(root: Path, mode: ShareMode)

  /** Why a list of exports is refused: which two, by their place in the list. */
  datatype Refusal = SameDirectory(first: nat, second: nat) | Nested(inner: nat, outer: nat)

  /** A path lies in a directory or is it. */
  predicate Below(path: Path, root: Path) { root <= path }

  /** What an export grants on a path. */
  ghost predicate Grants(shares: seq<Share>, mode: ShareMode, path: Path) {
    exists i :: 0 <= i < |shares| && shares[i].mode == mode && Below(path, shares[i].root)
  }

  /** Two roots above one path lie one below the other. */
  lemma RootsAreNested(path: Path, a: Path, b: Path)
    requires Below(path, a) && Below(path, b)
    ensures Below(a, b) || Below(b, a)
  {
    assert a == path[..|a|] && b == path[..|b|];
    if |a| <= |b| { assert b[..|a|] == a; } else { assert a[..|b|] == b; }
  }

  predicate Conflict(a: Share, b: Share) {
    a.mode != b.mode && (Below(a.root, b.root) || Below(b.root, a.root))
  }

  predicate NoConflict(shares: seq<Share>) {
    forall i, j :: 0 <= i < j < |shares| ==> !Conflict(shares[i], shares[j])
  }

  /** No pair in conflict is exactly no path granted both ways. */
  lemma ConflictIsDoubleGrant(shares: seq<Share>)
    ensures NoConflict(shares)
       <==> forall path: Path :: !(Grants(shares, ReadOnly, path) && Grants(shares, ReadWrite, path))
  {
    forall path: Path | Grants(shares, ReadOnly, path) && Grants(shares, ReadWrite, path)
      ensures !NoConflict(shares)
    {
      var i :| 0 <= i < |shares| && shares[i].mode == ReadOnly && Below(path, shares[i].root);
      var j :| 0 <= j < |shares| && shares[j].mode == ReadWrite && Below(path, shares[j].root);
      RootsAreNested(path, shares[i].root, shares[j].root);
      if i < j { assert Conflict(shares[i], shares[j]); } else { assert Conflict(shares[j], shares[i]); }
    }
    if !NoConflict(shares) {
      var i, j :| 0 <= i < j < |shares| && Conflict(shares[i], shares[j]);
      var inner := if Below(shares[i].root, shares[j].root) then i else j;
      var path := shares[inner].root;
      assert Below(path, shares[i].root) && Below(path, shares[j].root);
      assert Grants(shares, ReadOnly, path) && Grants(shares, ReadWrite, path);
    }
  }

  /** The pair of a refusal, in the order of the list. */
  predicate Names(r: Refusal, i: nat, j: nat) {
    match r
    case SameDirectory(a, b) => a == i && b == j
    case Nested(a, b) => (a == i && b == j) || (a == j && b == i)
  }

  /** The reason given is the true one. */
  predicate Explains(shares: seq<Share>, r: Refusal) {
    match r
    case SameDirectory(a, b) => a < |shares| && b < |shares| && shares[a].root == shares[b].root
    case Nested(inner, outer) => inner < |shares| && outer < |shares| && shares[outer].root < shares[inner].root
  }

  /** Checks the pairs in order. The list passes exactly when no path is granted both
      read-only and writable, and a refusal names the first pair in conflict and how they
      lie. */
  method CheckExportOverlap(shares: seq<Share>) returns (refusal: Option<Refusal>)
    ensures refusal.None? <==>
      forall path: Path :: !(Grants(shares, ReadOnly, path) && Grants(shares, ReadWrite, path))
    ensures refusal.Some? ==> Explains(shares, refusal.value)
    ensures refusal.Some? ==>
      exists i, j ::
        && 0 <= i < j < |shares| && Names(refusal.value, i, j) && Conflict(shares[i], shares[j])
        && FirstPair(shares, i, j)
  {
    ConflictIsDoubleGrant(shares);
    for i := 0 to |shares|
      invariant FirstPair(shares, i, 0)
    {
      for j := i + 1 to |shares|
        invariant FirstPair(shares, i, j)
      {
        if shares[i].mode != shares[j].mode {
          if shares[i].root == shares[j].root {
            return Some(SameDirectory(i, j));
          }
          if shares[j].root <= shares[i].root {
            return Some(Nested(i, j));
          }
          if shares[i].root <= shares[j].root {
            return Some(Nested(j, i));
          }
        }
      }
    }
    return None;
  }

  /** No pair before `(i, j)` is in conflict. */
  predicate FirstPair(shares: seq<Share>, i: int, j: int) {
    forall x, y :: 0 <= x < y < |shares| && (x < i || (x == i && y < j)) ==> !Conflict(shares[x], shares[y])
  }
}
