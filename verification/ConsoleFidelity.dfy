/** What of a guest's output the operator sees: everything harmless in it, as the terminal
    itself would have read it. */
module ConsoleFidelity {
  import opened Base
  import opened Folds
  import opened Utf8
  import opened CsiRules
  import opened ConsoleFilter
  import opened ConsoleSafety
  import T = Terminal

  const DEL: int := 0x7f
  const UNKNOWN: int := 0xfffd

  // ----------------------------------------------------- reading any bytes

  /** How many bytes at the front of `s` continue a character, `most` at most. */
  function Tails(s: seq<byte>, most: nat): (n: nat)
    ensures n <= |s| && n <= most
    ensures forall i :: 0 <= i < n ==> Tail(s[i])
    ensures n < |s| && n < most ==> !Tail(s[n])
  {
    if s == [] || most == 0 || !Tail(s[0]) then 0 else 1 + Tails(s[1..], most - 1)
  }

  /** The code points of any bytes: a character is as long as its first byte says, and one
      that is malformed, or cut short by a byte that cannot continue it, reads as U+FFFD,
      as does a byte no character starts with. One cut short by the end is not read yet. */
  function Read(s: seq<byte>): seq<int> {
    if s == [] then []
    else
      var n := Length(s[0]);
      if n == 0 then [UNKNOWN] + Read(s[1..])
      else
        var k := 1 + Tails(s[1..], n - 1);
        if k == n then [if IsChar(s[..n]) then CodePoint(s[..n]) else UNKNOWN] + Read(s[n..])
        else if k == |s| then []
        else [UNKNOWN] + Read(s[k..])
  }

  /** Well-formed text reads as what it encodes. */
  lemma {:induction false} ReadIsDecode(s: seq<byte>)
    requires Decode(s).Some?
    ensures Read(s) == Decode(s).value
    decreases |s|
  {
    if s != [] {
      var n := Length(s[0]);
      DecodeFirst(s);
      var k := 1 + Tails(s[1..], n - 1);
      forall i | 1 <= i < n ensures Tail(s[i]) { assert s[i] == s[..n][i]; }
      ReadIsDecode(s[n..]);
    }
  }

  // --------------------------------------------- the terminal without C1 controls

  /** The reference terminal, but a C1 control shows nothing and ends a sequence it stands
      in, and so does DEL right behind an escape. */
  function Tamed(s: T.State, c: int): (T.State, seq<T.Action>) {
    if IsC1(c) then (if s.ControlString? then s else T.Ground, [])
    else if c == DEL && s.Escape? then (T.Ground, [])
    else T.Next(s, c)
  }

  function TamedRun(s: T.State, text: seq<int>): (T.State, seq<T.Action>) { Fold(Tamed, s, text) }

  /** A text has no C1 control and no DEL right behind an escape, read from state `s`. */
  predicate IsTame(s: T.State, text: seq<int>) {
    forall k :: 0 <= k < |text| ==> !IsC1(text[k]) && (text[k] == DEL ==> !T.Run(s, text[..k]).0.Escape?)
  }

  lemma {:induction false} TameIsTerminal(s: T.State, text: seq<int>)
    requires IsTame(s, text)
    ensures TamedRun(s, text) == T.Run(s, text)
  {
    if text != [] {
      var n := |text| - 1;
      forall k | 0 <= k < n
        ensures !IsC1(text[..n][k]) && (text[..n][k] == DEL ==> !T.Run(s, text[..n][..k]).0.Escape?)
      {
        assert text[..n][..k] == text[..k];
      }
      TameIsTerminal(s, text[..n]);
    }
  }

  // ------------------------------------------------------------ what is shown

  /** The actions the operator is to see: text, the C0 controls but ENQ, CAN and SUB, and
      the harmless sequences that are no longer than 128 bytes before the final. */
  ghost predicate IsShown(a: T.Action) {
    match a
    case Print(_) => true
    case Execute(c) => c != ENQ && c != CAN && c != SUB
    case EscDispatch(_, _) => T.Harmless(a)
    case CsiDispatch(params, inter, _) => T.Harmless(a) && |params| + |inter| + 2 <= 128
    case StringStart(_) => false
  }

  ghost function Shown(a: T.Action): seq<T.Action> { if IsShown(a) then [a] else [] }

  ghost function ShownOf(acts: seq<T.Action>): seq<T.Action> { ConcatMap(Shown, acts) }

  lemma ShownOfOne(a: T.Action)
    ensures ShownOf([a]) == Shown(a)
  {
    ConcatMapSnoc(Shown, [], a);
    assert [] + [a] == [a] && [] + Shown(a) == Shown(a);
  }

  lemma ShownOfNone()
    ensures ShownOf([]) == []
  {
  }

  lemma ShownOfBoth(a: seq<T.Action>, b: seq<T.Action>)
    ensures ShownOf(a + b) == ShownOf(a) + ShownOf(b)
  {
    ConcatMapConcat(Shown, a, b);
  }

  lemma TakesNothing()
    ensures Takes([], [])
  {
  }

  lemma TakesUnknown()
    ensures Takes(REPLACEMENT, [T.Print(UNKNOWN)])
  {
    assert IsChar(REPLACEMENT) && CodePoint(REPLACEMENT) == UNKNOWN;
    TakesWide(REPLACEMENT);
  }

  // ------------------------------------------------------------- simulation

  /** The parameter and intermediate bytes a terminal has collected. */
  function Size(s: T.State): nat {
    match s
    case CsiParam(params) => |params|
    case CsiInter(params, inter) => |params| + |inter|
    case _ => 0
  }

  predicate InControl(s: T.State) { s.CsiParam? || s.CsiInter? || s.CsiIgnore? }

  /** The filter and the terminal that reads the unfiltered text are at the same place. A
      filter that ignores a control sequence does so because it is too long. */
  predicate Follows(f: Filter, s: T.State) {
    && Valid(f) && f.want == 0
    && match f.mode
       case Ground => s.Ground?
       case Escape => s.Escape?
       case EscapeIntermediate =>
         && s.EscapeInter? && |s.inter| >= 1
         && (|f.held| == 2 <==> |s.inter| == 1) && (|s.inter| == 1 ==> f.held[1] == s.inter[0])
       case Csi => s == Collected(f.held[2..])
       case CsiIgnore => InControl(s) && (s.CsiIgnore? || Size(s) + 2 > MAX_SEQ)
       case ControlString => s.ControlString?
  }

  /** What the filter lets out, shown, is what the terminal does, shown. */
  ghost predicate SameShown(out: seq<byte>, acts: seq<T.Action>) {
    exists x :: Takes(out, x) && ShownOf(x) == ShownOf(acts)
  }

  lemma SameShownBoth(a: seq<byte>, x: seq<T.Action>, b: seq<byte>, y: seq<T.Action>)
    requires SameShown(a, x) && SameShown(b, y)
    ensures SameShown(a + b, x + y)
  {
    var u :| Takes(a, u) && ShownOf(u) == ShownOf(x);
    var v :| Takes(b, v) && ShownOf(v) == ShownOf(y);
    TakesBoth(a, u, b, v);
    ShownOfBoth(u, v);
    ShownOfBoth(x, y);
  }

  lemma Same(out: seq<byte>, acts: seq<T.Action>)
    requires Takes(out, acts)
    ensures SameShown(out, acts)
  {
  }

  /** Nothing let out, and nothing done that is shown. */
  lemma NothingShown(acts: seq<T.Action>)
    requires acts == [] || (|acts| == 1 && !IsShown(acts[0]))
    ensures SameShown([], acts)
  {
    TakesNothing();
    ShownOfNone();
    if acts != [] {
      assert acts == [acts[0]];
      ShownOfOne(acts[0]);
    }
  }

  lemma ExecuteShown(b: byte)
    requires b < 0x20 && b != ESC
    ensures SameShown(Execute(b), [T.Execute(b)])
  {
    if b == ENQ { NothingShown([T.Execute(b)]); } else { TakesPlain(b); Same([b], [T.Execute(b)]); }
  }

  // One byte below 0x80, in each mode.

  /** The filter and the terminal step together. */
  ghost predicate StepsAlike(f: Filter, s: T.State, b: byte) {
    && Follows(Dispatch(f, b).0, Tamed(s, b).0)
    && SameShown(Dispatch(f, b).1, Tamed(s, b).1)
  }

  lemma GroundSteps(f: Filter, s: T.State, b: byte)
    requires Follows(f, s) && f.mode.Ground? && b < 0x80
    ensures StepsAlike(f, s, b)
  {
    if b == ESC {
      NothingShown([]);
    } else if b < 0x20 {
      ExecuteShown(b);
    } else {
      TakesPlain(b);
      Same([b], [T.Print(b)]);
    }
  }

  /** ESC, CAN, SUB and the other C0 controls inside a sequence. */
  lemma ControlSteps(f: Filter, s: T.State, b: byte)
    requires Follows(f, s) && !f.mode.Ground? && !f.mode.ControlString? && b < 0x20
    ensures StepsAlike(f, s, b)
  {
    if b == ESC {
      NothingShown([]);
    } else if b == CAN || b == SUB {
      NothingShown([T.Execute(b)]);
    } else {
      ExecuteShown(b);
    }
  }

  lemma EscapeSteps(f: Filter, s: T.State, b: byte)
    requires Follows(f, s) && f.mode.Escape? && 0x20 <= b < 0x80
    ensures StepsAlike(f, s, b)
  {
    if IsSimpleFinal(b) {
      TakesSimple(b);
      Same([ESC, b], [T.EscDispatch([], b)]);
    } else {
      if b == OPEN_BRACKET { assert (f.held + [b])[2..] == []; }
      NothingShown(Tamed(s, b).1);
    }
  }

  lemma EscapeIntermediateSteps(f: Filter, s: T.State, b: byte)
    requires Follows(f, s) && f.mode.EscapeIntermediate? && 0x20 <= b < 0x80
    ensures StepsAlike(f, s, b)
  {
    if |f.held| == 2 && IsSetSelector(f.held[1]) && IsSet(b) {
      assert f.held + [b] == [ESC, f.held[1], b] && s.inter == [f.held[1]];
      TakesSelectSet(f.held[1], b);
      Same(f.held + [b], [T.EscDispatch(s.inter, b)]);
    } else {
      NothingShown(Tamed(s, b).1);
    }
  }

  lemma CsiIgnoreSteps(f: Filter, s: T.State, b: byte)
    requires Follows(f, s) && f.mode.CsiIgnore? && 0x20 <= b < 0x80
    ensures StepsAlike(f, s, b)
  {
    NothingShown(Tamed(s, b).1);
  }

  lemma ControlStringSteps(f: Filter, s: T.State, b: byte)
    requires Follows(f, s) && f.mode.ControlString? && b < 0x80
    ensures StepsAlike(f, s, b)
  {
    NothingShown(Tamed(s, b).1);
  }

  lemma CollectedSize(rest: seq<int>)
    ensures InControl(Collected(rest)) && (!Collected(rest).CsiIgnore? ==> Size(Collected(rest)) == |rest|)
  {
    var k := FirstIntermediate(rest);
    assert rest == rest[..k] + rest[k..];
  }

  lemma CsiHolds(f: Filter, s: T.State, b: byte)
    requires Follows(f, s) && f.mode.Csi? && 0x20 <= b <= 0x3f
    ensures StepsAlike(f, s, b)
  {
    hide Collected;
    var rest := f.held[2..];
    CollectedGrows(rest, b);
    CollectedSize(rest + [b]);
    assert (f.held + [b])[2..] == rest + [b];
    assert Tamed(s, b) == T.Next(s, b);
    hide T.Next, SameShown;
    NothingShown([]);
  }

  /** The terminal's answer to a final byte is the one it would give the sequence whole. */
  lemma FinalDispatches(rest: seq<int>, b: int)
    requires IsHeld(rest) && T.IsFinal(b)
    ensures T.Next(Collected(rest), b) == (T.Ground, Dispatches(rest + [b]))
  {
    TerminalDispatch(rest, b);
    var k := FirstIntermediate(rest);
    assert k == |rest| ==> rest[..k] == rest && rest[k..] == [];
  }

  lemma BodyShown(rest: seq<byte>, b: byte)
    requires IsHeld(rest) && T.IsFinal(b) && |rest| + 2 <= MAX_SEQ
    ensures SameShown(if CsiAllowed(rest + [b]) then [ESC, OPEN_BRACKET] + (rest + [b]) else [], Dispatches(rest + [b]))
  {
    var body := rest + [b];
    assert body[..|body| - 1] == rest;
    TerminalDispatch(rest, b);
    JudgesAsTerminal(body);
    hide CsiAllowed, T.IsConsoleControl, T.Run, SameShown, Collected;
    if CsiAllowed(body) {
      TakesControl(body);
      Same([ESC, OPEN_BRACKET] + body, Dispatches(body));
    } else {
      NothingShown(Dispatches(body));
    }
  }

  lemma CsiEnds(f: Filter, s: T.State, b: byte)
    requires Follows(f, s) && f.mode.Csi? && T.IsFinal(b)
    ensures StepsAlike(f, s, b)
  {
    hide CsiAllowed, Collected, T.Next, Dispatches, SameShown;
    var rest := f.held[2..];
    assert (f.held + [b])[2..] == rest + [b] && f.held + [b] == [ESC, OPEN_BRACKET] + (rest + [b]);
    FinalDispatches(rest, b);
    BodyShown(rest, b);
  }

  lemma CsiSteps(f: Filter, s: T.State, b: byte)
    requires Follows(f, s) && f.mode.Csi? && 0x20 <= b < 0x80
    ensures StepsAlike(f, s, b)
  {
    if b <= 0x3f {
      CsiHolds(f, s, b);
    } else if b <= 0x7e {
      CsiEnds(f, s, b);
    } else {
      CollectedSize(f.held[2..]);
      NothingShown([]);
    }
  }

  lemma AsciiSteps(f: Filter, s: T.State, b: byte)
    requires Follows(f, s) && b < 0x80
    ensures StepsAlike(f, s, b)
  {
    match f.mode
    case Ground => GroundSteps(f, s, b);
    case ControlString => ControlStringSteps(f, s, b);
    case Escape => if b < 0x20 { ControlSteps(f, s, b); } else { EscapeSteps(f, s, b); }
    case EscapeIntermediate => if b < 0x20 { ControlSteps(f, s, b); } else { EscapeIntermediateSteps(f, s, b); }
    case Csi => if b < 0x20 { ControlSteps(f, s, b); } else { CsiSteps(f, s, b); }
    case CsiIgnore => if b < 0x20 { ControlSteps(f, s, b); } else { CsiIgnoreSteps(f, s, b); }
  }

  // Bytes from 0x80 on.

  lemma FeedOne(f: Filter, b: byte)
    ensures Feed(f, [b]) == Push(f, b)
  {
    FoldSnoc(Push, f, [], b);
    assert [] + [b] == [b] && [] + Push(f, b).1 == Push(f, b).1;
  }

  predicate AllHigh(p: seq<byte>) { forall i :: 0 <= i < |p| ==> p[i] >= 0x80 }

  /** A control string swallows them. */
  lemma {:induction false} StringSwallows(f: Filter, p: seq<byte>)
    requires f.mode.ControlString? && f.want == 0 && AllHigh(p)
    ensures Feed(f, p) == (f, [])
  {
    if p != [] {
      var n := |p| - 1;
      assert p == p[..n] + [p[n]];
      StringSwallows(f, p[..n]);
      FeedQuiet(f, p[..n], p[n], f, f, []);
    }
  }

  /** The first bytes of a character, as many as are there. */
  predicate IsStart(p: seq<byte>) {
    1 <= |p| <= Length(p[0]) && Length(p[0]) >= 2 && forall i :: 1 <= i < |p| ==> Tail(p[i])
  }

  function Collecting(f: Filter, p: seq<byte>): Filter
    requires p != []
  {
    f.(mode := Ground, utf8 := p, want := Length(p[0]))
  }

  /** Elsewhere the filter leaves the sequence it is in and collects a character. */
  lemma {:induction false} CollectsStart(f: Filter, p: seq<byte>)
    requires f.want == 0 && f.utf8 == [] && !f.mode.ControlString? && IsStart(p) && |p| < Length(p[0])
    ensures Feed(f, p) == (Collecting(f, p), [])
  {
    var n := |p| - 1;
    if n == 0 {
      assert p == [p[0]];
      FeedOne(f, p[0]);
    } else {
      assert p == p[..n] + [p[n]];
      CollectsStart(f, p[..n]);
      FeedQuiet(f, p[..n], p[n], Collecting(f, p[..n]), Collecting(f, p), []);
    }
  }

  function AtGround(f: Filter): Filter { f.(mode := Ground, utf8 := [], want := 0) }

  lemma CollectsWhole(f: Filter, p: seq<byte>)
    requires f.want == 0 && f.utf8 == [] && !f.mode.ControlString? && IsStart(p) && |p| == Length(p[0])
    ensures Feed(f, p) == (AtGround(f), FinishUtf8(p))
  {
    var n := |p| - 1;
    assert p == p[..n] + [p[n]];
    CollectsStart(f, p[..n]);
    FeedQuiet(f, p[..n], p[n], Collecting(f, p[..n]), AtGround(f), FinishUtf8(p));
  }

  /** What a character of more than one byte, or what stands for a malformed one, does. */
  lemma HighSteps(f: Filter, s: T.State, c: int)
    requires Follows(f, s) && c >= 0x80
    ensures f.mode.ControlString? ==> Tamed(s, c) == (s, [])
    ensures !f.mode.ControlString? ==>
      Follows(AtGround(f), Tamed(s, c).0) && Tamed(s, c).1 == if IsC1(c) then [] else [T.Print(c)]
  {
    if f.mode.Csi? { CollectedSize(f.held[2..]); }
  }

  lemma WholeShown(p: seq<byte>)
    requires IsStart(p) && |p| == Length(p[0])
    ensures var c := if IsChar(p) then CodePoint(p) else UNKNOWN;
      c >= 0x80 && SameShown(FinishUtf8(p), if IsC1(c) then [] else [T.Print(c)])
  {
    FinishedChar(p);
    if !IsChar(p) {
      TakesUnknown();
      Same(REPLACEMENT, [T.Print(UNKNOWN)]);
    } else {
      CodePointRange(p);
      assert CodePoint(p) in [CodePoint(p)];
      hide Takes, SameShown, CodePoint;
      if IsC1(CodePoint(p)) {
        NothingShown([]);
      } else {
        TakesWide(p);
        Same(p, [T.Print(CodePoint(p))]);
      }
    }
  }

  lemma UnknownShown()
    ensures SameShown(REPLACEMENT, [T.Print(UNKNOWN)])
  {
    TakesUnknown();
    Same(REPLACEMENT, [T.Print(UNKNOWN)]);
  }

  lemma CutPush(f: Filter, p: seq<byte>, x: byte)
    requires p != [] && Length(p[0]) > 0 && !Tail(x)
    ensures Push(Collecting(f, p), x) == (Push(AtGround(f), x).0, REPLACEMENT + Push(AtGround(f), x).1)
  {
    hide Dispatch;
  }

  lemma FeedCons(f: Filter, x: byte, more: seq<byte>)
    ensures Feed(f, [x] + more) == (Feed(Push(f, x).0, more).0, Push(f, x).1 + Feed(Push(f, x).0, more).1)
  {
    hide Push;
    FeedOne(f, x);
    FeedConcat(f, [x], more);
  }

  /** The byte that cuts a character short finds the filter as if at rest, but for the
      replacement that goes out first. */
  lemma CutBehaves(f: Filter, p: seq<byte>, rest: seq<byte>)
    requires p != [] && Length(p[0]) > 0 && rest != [] && !Tail(rest[0])
    ensures Feed(Collecting(f, p), rest) == (Feed(AtGround(f), rest).0, REPLACEMENT + Feed(AtGround(f), rest).1)
  {
    var x, more, g, h := rest[0], rest[1..], Collecting(f, p), AtGround(f);
    CutPush(f, p, x);
    hide Push, Feed, Collecting, AtGround;
    assert rest == [x] + more;
    FeedCons(g, x, more);
    FeedCons(h, x, more);
    Assoc(REPLACEMENT, Push(h, x).1, Feed(Push(h, x).0, more).1);
  }

  lemma Assoc(a: seq<byte>, b: seq<byte>, c: seq<byte>)
    ensures (a + b) + c == a + (b + c)
  {
  }

  lemma CutShort(f: Filter, p: seq<byte>, rest: seq<byte>)
    requires f.want == 0 && f.utf8 == [] && !f.mode.ControlString? && IsStart(p) && |p| < Length(p[0])
    requires rest != [] && !Tail(rest[0])
    ensures Feed(f, p + rest) == (Feed(AtGround(f), rest).0, REPLACEMENT + Feed(AtGround(f), rest).1)
  {
    hide Feed, Collecting;
    CollectsStart(f, p);
    CutBehaves(f, p, rest);
    FeedConcat(f, p, rest);
    assert [] + Feed(Collecting(f, p), rest).1 == Feed(Collecting(f, p), rest).1;
  }

  // ---------------------------------------------------------- piece by piece

  /** After `p` the filter is at `g`, and `out` went out for it. */
  ghost predicate Passed(f: Filter, p: seq<byte>, rest: seq<byte>, g: Filter, out: seq<byte>) {
    Feed(f, p + rest) == (Feed(g, rest).0, out + Feed(g, rest).1)
  }

  lemma PassedWhole(f: Filter, p: seq<byte>, rest: seq<byte>, g: Filter, out: seq<byte>)
    requires Feed(f, p) == (g, out)
    ensures Passed(f, p, rest, g, out)
  {
    FeedConcat(f, p, rest);
  }

  lemma AsciiPiece(f: Filter, s: T.State, b: byte, rest: seq<byte>) returns (g: Filter, out: seq<byte>)
    requires Follows(f, s) && b < 0x80
    ensures Passed(f, [b], rest, g, out) && Follows(g, Tamed(s, b).0) && SameShown(out, Tamed(s, b).1)
  {
    AsciiSteps(f, s, b);
    FeedOne(f, b);
    g, out := Dispatch(f, b).0, Dispatch(f, b).1;
    PassedWhole(f, [b], rest, g, out);
  }

  /** A byte that starts no character. */
  lemma StrayPiece(f: Filter, s: T.State, b: byte, rest: seq<byte>) returns (g: Filter, out: seq<byte>)
    requires Follows(f, s) && Length(b) == 0
    ensures Passed(f, [b], rest, g, out) && Follows(g, Tamed(s, UNKNOWN).0) && SameShown(out, Tamed(s, UNKNOWN).1)
  {
    HighSteps(f, s, UNKNOWN);
    FeedOne(f, b);
    if f.mode.ControlString? {
      g, out := f, [];
      NothingShown([]);
    } else {
      g, out := AtGround(f), REPLACEMENT;
      UnknownShown();
    }
    PassedWhole(f, [b], rest, g, out);
  }

  lemma WholePiece(f: Filter, s: T.State, p: seq<byte>, rest: seq<byte>) returns (g: Filter, out: seq<byte>)
    requires Follows(f, s) && IsStart(p) && |p| == Length(p[0])
    ensures var c := if IsChar(p) then CodePoint(p) else UNKNOWN;
      Passed(f, p, rest, g, out) && Follows(g, Tamed(s, c).0) && SameShown(out, Tamed(s, c).1)
  {
    var c := if IsChar(p) then CodePoint(p) else UNKNOWN;
    WholeShown(p);
    HighSteps(f, s, c);
    if f.mode.ControlString? {
      g, out := f, [];
      StringSwallows(f, p);
      NothingShown([]);
    } else {
      g, out := AtGround(f), FinishUtf8(p);
      CollectsWhole(f, p);
    }
    PassedWhole(f, p, rest, g, out);
  }

  lemma CutPiece(f: Filter, s: T.State, p: seq<byte>, rest: seq<byte>) returns (g: Filter, out: seq<byte>)
    requires Follows(f, s) && IsStart(p) && |p| < Length(p[0]) && rest != [] && !Tail(rest[0])
    ensures Passed(f, p, rest, g, out) && Follows(g, Tamed(s, UNKNOWN).0) && SameShown(out, Tamed(s, UNKNOWN).1)
  {
    HighSteps(f, s, UNKNOWN);
    if f.mode.ControlString? {
      g, out := f, [];
      StringSwallows(f, p);
      PassedWhole(f, p, rest, g, out);
      NothingShown([]);
    } else {
      g, out := AtGround(f), REPLACEMENT;
      CutShort(f, p, rest);
      UnknownShown();
    }
  }

  lemma UnfinishedPiece(f: Filter, p: seq<byte>)
    requires Valid(f) && f.want == 0 && IsStart(p) && |p| < Length(p[0])
    ensures Feed(f, p).1 == []
  {
    if f.mode.ControlString? { StringSwallows(f, p); } else { CollectsStart(f, p); }
  }

  /** The next code point of `input`, its bytes, and what is behind them; or none yet. */
  lemma NextPiece(f: Filter, s: T.State, input: seq<byte>)
    returns (c: int, rest: seq<byte>, g: Filter, out: seq<byte>)
    requires Follows(f, s) && Read(input) != []
    ensures |rest| < |input| && Read(input) == [c] + Read(rest)
    ensures Feed(f, input) == (Feed(g, rest).0, out + Feed(g, rest).1)
    ensures Follows(g, Tamed(s, c).0) && SameShown(out, Tamed(s, c).1)
  {
    var n := Length(input[0]);
    if n <= 1 {
      rest := input[1..];
      assert input == [input[0]] + rest;
      if n == 0 {
        c := UNKNOWN;
        g, out := StrayPiece(f, s, input[0], rest);
      } else {
        c := input[0];
        assert input[..1] == [input[0]];
        g, out := AsciiPiece(f, s, input[0], rest);
      }
    } else {
      var k := 1 + Tails(input[1..], n - 1);
      var p := input[..k];
      rest := input[k..];
      assert input == p + rest;
      forall i | 1 <= i < k ensures Tail(p[i]) { assert p[i] == input[1..][i - 1]; }
      if k == n {
        c := if IsChar(p) then CodePoint(p) else UNKNOWN;
        g, out := WholePiece(f, s, p, rest);
      } else {
        c := UNKNOWN;
        assert rest[0] == input[1..][k - 1];
        g, out := CutPiece(f, s, p, rest);
      }
    }
  }

  lemma NothingRead(f: Filter, input: seq<byte>)
    requires Valid(f) && f.want == 0 && Read(input) == []
    ensures Feed(f, input).1 == []
  {
    if input != [] {
      var k := 1 + Tails(input[1..], Length(input[0]) - 1);
      forall i | 1 <= i < k ensures Tail(input[i]) { assert input[i] == input[1..][i - 1]; }
      UnfinishedPiece(f, input);
    }
  }

  lemma TamedCons(s: T.State, c: int, more: seq<int>)
    ensures TamedRun(s, [c] + more).1 == Tamed(s, c).1 + TamedRun(Tamed(s, c).0, more).1
  {
    FoldSnoc(Tamed, s, [], c);
    assert [] + [c] == [c] && [] + Tamed(s, c).1 == Tamed(s, c).1;
    FoldConcat(Tamed, s, [c], more);
  }

  lemma {:induction false} AllShown(f: Filter, s: T.State, input: seq<byte>)
    requires Follows(f, s)
    ensures SameShown(Feed(f, input).1, TamedRun(s, Read(input)).1)
    decreases |input|
  {
    if Read(input) == [] {
      NothingRead(f, input);
      NothingShown([]);
    } else {
      var c, rest, g, out := NextPiece(f, s, input);
      var t, acts := Tamed(s, c).0, Tamed(s, c).1;
      AllShown(g, t, rest);
      TamedCons(s, c, Read(rest));
      SameShownBoth(out, acts, Feed(g, rest).1, TamedRun(t, Read(rest)).1);
    }
  }

  // ---------------------------------------------------------------- theorems

  /** Whatever bytes a guest writes, the operator's terminal shows exactly what is harmless
      in them: the text, controls and sequences of the output are those the terminal would
      have read from the guest itself, C1 controls aside. */
  lemma EverythingHarmlessIsShown(input: seq<byte>)
    ensures var out := Feed(FRESH, input).1;
      && Decode(out).Some?
      && ShownOf(T.Run(T.Ground, Decode(out).value).1) == ShownOf(TamedRun(T.Ground, Read(input)).1)
  {
    AllShown(FRESH, T.Ground, input);
  }

  /** For well-formed text with no C1 control and no DEL right behind an escape, that is
      what the reference terminal itself would have shown. */
  lemma WellFormedTextIsShown(input: seq<byte>)
    requires Decode(input).Some? && IsTame(T.Ground, Decode(input).value)
    ensures var out := Feed(FRESH, input).1;
      && Decode(out).Some?
      && ShownOf(T.Run(T.Ground, Decode(out).value).1) == ShownOf(T.Run(T.Ground, Decode(input).value).1)
  {
    EverythingHarmlessIsShown(input);
    ReadIsDecode(input);
    TameIsTerminal(T.Ground, Decode(input).value);
  }

  /** DEL right behind an escape is where the two differ: the filter drops the escape and
      shows what follows as text, where the reference terminal goes on with the escape. */
  lemma DelBehindAnEscape()
    ensures var input: seq<byte> := [ESC, 0x7f, 0x41];
      Feed(FRESH, input).1 == [0x41] && T.Run(T.Ground, input).1 == [T.EscDispatch([], 0x41)]
  {
    var a: seq<byte>, b: seq<byte> := [ESC], [ESC, 0x7f];
    FeedOne(FRESH, ESC);
    assert b == a + [0x7f] && [ESC, 0x7f, 0x41] == b + [0x41];
    FeedQuiet(FRESH, a, 0x7f, StartEscape(FRESH), StartEscape(FRESH).(mode := Ground), []);
    FeedQuiet(FRESH, b, 0x41, StartEscape(FRESH).(mode := Ground), StartEscape(FRESH).(mode := Ground), [0x41]);
    RunEscape();
    T.RunSnoc(T.Ground, a, 0x7f, T.Escape, T.Escape, []);
    T.RunSnoc(T.Ground, b, 0x41, T.Escape, T.Ground, [T.EscDispatch([], 0x41)]);
  }
}
