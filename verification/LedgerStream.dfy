/** The stream of records a ledger accepts: what the file has to hold, as a function
    of which records were kept and which were dropped. */
module LedgerStream {
  import opened Base

  /** What became of a record offered to the open ledger. A kept one carries the
      marker line that would go before it for a number of drops. */
  datatype Fate = Kept(line: seq<byte>, marker: nat -> seq<byte>, droppable: bool) | Lost

  /** What the file holds: the line of a record, or the marker line for a count. */
  datatype Entry = Event(line: seq<byte>, droppable: bool) | Marker(count: nat, marker: nat -> seq<byte>)

  /** The losses since the last record kept. */
  function Trailing(h: seq<Fate>): nat {
    if |h| == 0 || h[|h| - 1].Kept? then 0 else 1 + Trailing(h[..|h| - 1])
  }

  /** The stream a history of records makes: the kept ones in order, each run of
      losses counted by a marker right before the next kept one. */
  function Render(h: seq<Fate>): seq<Entry> {
    if |h| == 0 then [] else
      var before, f := h[..|h| - 1], h[|h| - 1];
      match f
      case Lost => Render(before)
      case Kept(line, marker, droppable) =>
        Render(before)
        + (if Trailing(before) > 0 then [Marker(Trailing(before), marker)] else [])
        + [Event(line, droppable)]
  }

  function EntryText(e: Entry): seq<byte> { if e.Event? then e.line else e.marker(e.count) }

  function Text(es: seq<Entry>): seq<byte> {
    if |es| == 0 then [] else Text(es[..|es| - 1]) + EntryText(es[|es| - 1])
  }

  function Stream(h: seq<Fate>): seq<byte> { Text(Render(h)) }

  function Losses(h: seq<Fate>): nat {
    if |h| == 0 then 0 else Losses(h[..|h| - 1]) + if h[|h| - 1].Lost? then 1 else 0
  }

  function KeptDroppable(es: seq<Entry>): nat {
    if |es| == 0 then 0
    else KeptDroppable(es[..|es| - 1]) + if es[|es| - 1].Event? && es[|es| - 1].droppable then 1 else 0
  }

  /** The sum of the counts of all markers. */
  function Marked(es: seq<Entry>): nat {
    if |es| == 0 then 0
    else Marked(es[..|es| - 1]) + if es[|es| - 1].Marker? then es[|es| - 1].count else 0
  }

  /** The position in the stream right after its last droppable record. */
  function LastDroppableEnd(es: seq<Entry>): nat {
    if |es| == 0 then 0
    else if es[|es| - 1].Event? && es[|es| - 1].droppable then |Text(es)|
    else LastDroppableEnd(es[..|es| - 1])
  }

  /** What the protocol keeps of a history: the bytes accepted, the positions
      between two entries of them, the losses no marker counts yet, all losses, the
      droppable records kept, and the position right after the last of those. */
  datatype Account = Account(
    text: seq<byte>,
    cuts: set<nat>,
    trailing: nat,
    losses: nat,
    keptDroppable: nat,
    droppableEnd: nat)

  const NOTHING := Account([], {0}, 0, 0, 0, 0)

  function Enter(a: Account, f: Fate): Account {
    match f
    case Lost => a.(trailing := a.trailing + 1, losses := a.losses + 1)
    case Kept(line, marker, droppable) =>
      var marked := if a.trailing > 0 then a.text + marker(a.trailing) else a.text;
      var text := marked + line;
      a.(text := text,
         cuts := a.cuts + {|marked|, |text|},
         trailing := 0,
         keptDroppable := a.keptDroppable + if droppable then 1 else 0,
         droppableEnd := if droppable then |text| else a.droppableEnd)
  }

  function AccountOf(h: seq<Fate>): Account {
    if |h| == 0 then NOTHING else Enter(AccountOf(h[..|h| - 1]), h[|h| - 1])
  }

  lemma TextSnoc(es: seq<Entry>, e: Entry)
    ensures Text(es + [e]) == Text(es) + EntryText(e)
    ensures KeptDroppable(es + [e]) == KeptDroppable(es) + if e.Event? && e.droppable then 1 else 0
    ensures Marked(es + [e]) == Marked(es) + if e.Marker? then e.count else 0
    ensures LastDroppableEnd(es + [e]) ==
            if e.Event? && e.droppable then |Text(es + [e])| else LastDroppableEnd(es)
  {
    assert (es + [e])[..|es|] == es;
  }

  /** How one more kept record changes the stream and the sums over it. */
  lemma StreamSnoc(h: seq<Fate>, f: Fate)
    requires f.Kept?
    ensures var es, m, e := Render(h), Marker(Trailing(h), f.marker), Event(f.line, f.droppable);
      var marked := if Trailing(h) > 0 then es + [m] else es;
      && Render(h + [f]) == marked + [e]
      && Stream(h + [f]) == (if Trailing(h) > 0 then Stream(h) + f.marker(Trailing(h)) else Stream(h)) + f.line
      && Marked(Render(h + [f])) == Marked(es) + Trailing(h)
      && KeptDroppable(Render(h + [f])) == KeptDroppable(es) + (if f.droppable then 1 else 0)
      && LastDroppableEnd(Render(h + [f])) == if f.droppable then |Stream(h + [f])| else LastDroppableEnd(es)
  {
    assert (h + [f])[..|h|] == h;
    var es, m, e := Render(h), Marker(Trailing(h), f.marker), Event(f.line, f.droppable);
    TextSnoc(es, m);
    TextSnoc(if Trailing(h) > 0 then es + [m] else es, e);
  }

  /** The account is the stream's: its text, its sums, and every drop counted once,
      by a marker or as one still to be marked. */
  lemma {:induction false} AccountIsStream(h: seq<Fate>)
    ensures var a, es := AccountOf(h), Render(h);
      && a.text == Stream(h)
      && a.trailing == Trailing(h)
      && a.losses == Losses(h) == Marked(es) + Trailing(h)
      && a.keptDroppable == KeptDroppable(es)
      && a.droppableEnd == LastDroppableEnd(es)
  {
    if h != [] {
      var before, f := h[..|h| - 1], h[|h| - 1];
      assert h == before + [f];
      AccountIsStream(before);
      if f.Kept? { StreamSnoc(before, f); }
    }
  }

  lemma {:induction false} FirstEntries(es: seq<Entry>, n: nat)
    requires n <= |es|
    ensures IsPrefix(Text(es[..n]), Text(es))
  {
    if n == |es| {
      assert es[..n] == es;
    } else {
      FirstEntries(es[..|es| - 1], n);
      assert es[..|es| - 1][..n] == es[..n];
    }
  }

  lemma Lengthens(h: seq<Fate>, f: Fate, n: nat)
    requires n <= |Render(h)|
    ensures n <= |Render(h + [f])| && Render(h + [f])[..n] == Render(h)[..n]
  {
    assert (h + [f])[..|h|] == h;
  }

  /** Each position between entries is the length of some first entries. */
  lemma {:induction false} CutIsBetweenEntries(h: seq<Fate>, c: nat) returns (n: nat)
    requires c in AccountOf(h).cuts
    ensures n <= |Render(h)| && c == |Text(Render(h)[..n])|
  {
    if h == [] { return 0; }
    var before, f := h[..|h| - 1], h[|h| - 1];
    assert h == before + [f];
    if c in AccountOf(before).cuts {
      n := CutIsBetweenEntries(before, c);
      Lengthens(before, f, n);
    } else {
      AccountIsStream(before);
      n := NewCut(before, f, c);
    }
  }

  lemma NewCut(h: seq<Fate>, f: Fate, c: nat) returns (n: nat)
    requires f.Kept? && c in {|Enter(AccountOf(h), f).text|, |AccountOf(h).text| + if Trailing(h) > 0 then |f.marker(Trailing(h))| else 0}
    ensures n <= |Render(h + [f])| && c == |Text(Render(h + [f])[..n])|
  {
    AccountIsStream(h);
    StreamSnoc(h, f);
    hide Render, AccountOf, Trailing, Text;
    var es, all := Render(h), Render(h + [f]);
    if c == |Stream(h + [f])| {
      assert all[..|all|] == all;
      return |all|;
    }
    TextSnoc(es, Marker(Trailing(h), f.marker));
    n := |all| - 1;
    assert all[..n] == if Trailing(h) > 0 then es + [Marker(Trailing(h), f.marker)] else es;
  }

  /** More records only add to the text. */
  lemma {:induction false} TextGrows(h: seq<Fate>, h': seq<Fate>)
    requires IsPrefix(h, h')
    ensures IsPrefix(AccountOf(h).text, AccountOf(h').text)
    decreases |h'|
  {
    if |h| < |h'| {
      TextGrows(h, h'[..|h'| - 1]);
    } else {
      assert h == h';
    }
  }

  /** A run of `n` drops between two kept records shows as one marker that counts
      them, right before the second. */
  lemma {:induction false} RunOfDrops(a: seq<Fate>, n: nat, f: Fate)
    requires (a == [] || a[|a| - 1].Kept?) && f.Kept?
    ensures var drops := seq(n, _ => Lost);
      Render(a + drops + [f]) ==
      Render(a) + (if n > 0 then [Marker(n, f.marker)] else []) + [Event(f.line, f.droppable)]
  {
    DropsRenderNothing(a, n);
    StreamSnoc(a + seq(n, _ => Lost), f);
  }

  lemma {:induction false} DropsRenderNothing(a: seq<Fate>, n: nat)
    requires a == [] || a[|a| - 1].Kept?
    ensures Render(a + seq(n, _ => Lost)) == Render(a) && Trailing(a + seq(n, _ => Lost)) == n
  {
    if n == 0 {
      assert a + seq(n, _ => Lost) == a;
    } else {
      var fewer := a + seq(n - 1, _ => Lost);
      assert (a + seq(n, _ => Lost))[..|fewer|] == fewer;
      DropsRenderNothing(a, n - 1);
    }
  }

  /** Every marker counts at least one drop and stands right before a record. */
  lemma {:induction false} MarkersPrecedeRecords(h: seq<Fate>, n: nat)
    requires n < |Render(h)| && Render(h)[n].Marker?
    ensures Render(h)[n].count > 0 && n + 1 < |Render(h)| && Render(h)[n + 1].Event?
  {
    var before := h[..|h| - 1];
    if n < |Render(before)| {
      MarkersPrecedeRecords(before, n);
    }
  }

  /** The text of an entry stands in the text of all, right behind those before it. */
  lemma EntryStands(es: seq<Entry>, n: nat)
    requires n < |es|
    ensures var at, line := |Text(es[..n])|, EntryText(es[n]);
      at + |line| <= |Text(es)| && Text(es)[at..at + |line|] == line
  {
    FirstEntries(es, n + 1);
    assert es[..n + 1] == es[..n] + [es[n]];
    TextSnoc(es[..n], es[n]);
    StandsIn(Text(es), Text(es[..n]), EntryText(es[n]));
  }

  lemma StandsIn(whole: seq<byte>, front: seq<byte>, line: seq<byte>)
    requires IsPrefix(front + line, whole)
    ensures |front| + |line| <= |whole| && whole[|front|..|front| + |line|] == line
  {
    assert whole[|front|..|front| + |line|] == whole[..|front + line|][|front|..];
  }

  predicate AllKept(fs: seq<Fate>) { forall i :: 0 <= i < |fs| ==> fs[i].Kept? }

  function Lines(fs: seq<Fate>): seq<Entry>
    requires AllKept(fs)
  {
    seq(|fs|, i requires 0 <= i < |fs| => Event(fs[i].line, fs[i].droppable))
  }

  lemma RenderSnoc(h: seq<Fate>, f: Fate)
    requires f.Kept?
    ensures Trailing(h + [f]) == 0
    ensures Render(h + [f]) ==
      Render(h) + (if Trailing(h) > 0 then [Marker(Trailing(h), f.marker)] else []) + [Event(f.line, f.droppable)]
  {
    assert (h + [f])[..|h|] == h;
  }

  /** Records kept one after the other show one after the other, behind the marker for
      the drops before them. */
  lemma {:induction false} RunOfRecords(h: seq<Fate>, fs: seq<Fate>)
    requires |fs| > 0 && AllKept(fs)
    ensures Render(h + fs) ==
      Render(h) + (if Trailing(h) > 0 then [Marker(Trailing(h), fs[0].marker)] else []) + Lines(fs)
    ensures Trailing(h + fs) == 0
  {
    var n := |fs| - 1;
    var before := fs[..n];
    assert h + fs == (h + before) + [fs[n]];
    hide Render, Trailing;
    RenderSnoc(h + before, fs[n]);
    if n == 0 {
      assert h + before == h;
      assert Lines(fs) == [Event(fs[0].line, fs[0].droppable)];
    } else {
      RunOfRecords(h, before);
      assert Lines(fs) == Lines(before) + [Event(fs[n].line, fs[n].droppable)];
    }
  }
}
