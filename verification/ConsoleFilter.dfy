/** The filter between a guest's serial console and the host's terminal: what it does
    with each byte, and the language of what it lets through. */
module ConsoleFilter {
  import opened Base
  import opened Folds
  import opened Utf8
  import opened CsiRules
  import Terminal

  const ESC: byte := 0x1b
  const ENQ: byte := 0x05
  const BEL: byte := 0x07
  const CAN: byte := 0x18
  const SUB: byte := 0x1a
  const OPEN_BRACKET: byte := 0x5b

  /** The longest escape sequence held back. */
  const MAX_SEQ: nat := 128

  const REPLACEMENT: seq<byte> := [0xef, 0xbf, 0xbd]

  datatype Mode = Ground | Escape | EscapeIntermediate | Csi | CsiIgnore | ControlString

  /** The value of a filter. `utf8` is the character collected so far, empty unless
      `want` says how many bytes it needs. */
  datatype Filter = Filter(mode: Mode, held: seq<byte>, utf8: seq<byte>, want: nat)

  const FRESH := Filter(Ground, [], [], 0)

  // ----------------------------------------------------- one byte at a time

  function Execute(b: byte): seq<byte> { if b != ENQ then [b] else [] }

  function StartEscape(f: Filter): Filter { f.(mode := Escape, held := [ESC]) }

  function Hold(f: Filter, b: byte): Filter {
    if |f.held| < MAX_SEQ then f.(held := f.held + [b])
    else if f.mode.Csi? then f.(mode := CsiIgnore)
    else f
  }

  /** How many bytes a character that starts with `b` needs, or 0. */
  function Wanted(b: byte): nat {
    if 0xc2 <= b <= 0xdf then 2 else if 0xe0 <= b <= 0xef then 3 else if 0xf0 <= b <= 0xf4 then 4 else 0
  }

  function InGround(f: Filter, b: byte): (Filter, seq<byte>) {
    if b == ESC then (StartEscape(f), [])
    else if b <= 0x1f then (f, Execute(b))
    else if b <= 0x7f then (f, [b])
    else if Wanted(b) == 0 then (f, REPLACEMENT)
    else (f.(utf8 := [b], want := Wanted(b)), [])
  }

  function InEscape(f: Filter, b: byte): (Filter, seq<byte>) {
    if b == ESC then (StartEscape(f), [])
    else if b == CAN || b == SUB then (f.(mode := Ground), [])
    else if b <= 0x1f then (f, Execute(b))
    else if b == OPEN_BRACKET then (f.(held := f.held + [b], mode := Csi), [])
    else if b in {0x5d, 0x50, 0x58, 0x5e, 0x5f} then (f.(mode := ControlString), [])
    else if b <= 0x2f then (f.(held := f.held + [b], mode := EscapeIntermediate), [])
    else if IsSimpleFinal(b) then (f.(mode := Ground), [ESC, b])
    else if b <= 0x7f then (f.(mode := Ground), [])
    else InGround(f.(mode := Ground), b)
  }

  /** The finals of DECSC, DECRC, IND, NEL, RI, DECKPAM and DECKPNM. */
  predicate IsSimpleFinal(b: byte) {
    var c := b as char; c == '7' || c == '8' || c == 'D' || c == 'E' || c == 'M' || c == '=' || c == '>'
  }

  /** The intermediates and finals that select a character set. */
  predicate IsSetSelector(b: byte) { var c := b as char; c == '(' || c == ')' || c == '*' || c == '+' }

  predicate IsSet(b: byte) { var c := b as char; c == '0' || c == 'A' || c == 'B' }

  function InEscapeIntermediate(f: Filter, b: byte): (Filter, seq<byte>) {
    if b == ESC then (StartEscape(f), [])
    else if b == CAN || b == SUB then (f.(mode := Ground), [])
    else if b <= 0x1f then (f, Execute(b))
    else if b <= 0x2f then (Hold(f, b), [])
    else if b <= 0x7e then
      (f.(mode := Ground), if |f.held| == 2 && IsSetSelector(f.held[1]) && IsSet(b) then f.held + [b] else [])
    else if b == 0x7f then (f, [])
    else InGround(f.(mode := Ground), b)
  }

  function InCsi(f: Filter, b: byte): (Filter, seq<byte>) {
    if b == ESC then (StartEscape(f), [])
    else if b == CAN || b == SUB then (f.(mode := Ground), [])
    else if b <= 0x1f then (f, Execute(b))
    else if b <= 0x3f then (Hold(f, b), [])
    else if b <= 0x7e then
      var whole := f.held + [b];
      (f.(held := whole, mode := Ground), if |whole| >= 2 && CsiAllowed(whole[2..]) then whole else [])
    else if b == 0x7f then (f, [])
    else InGround(f.(mode := Ground), b)
  }

  function InCsiIgnore(f: Filter, b: byte): (Filter, seq<byte>) {
    if b == ESC then (StartEscape(f), [])
    else if b == CAN || b == SUB || 0x40 <= b <= 0x7e then (f.(mode := Ground), [])
    else if b <= 0x1f then (f, Execute(b))
    else if b <= 0x7f then (f, [])
    else InGround(f.(mode := Ground), b)
  }

  function InControlString(f: Filter, b: byte): Filter {
    if b == ESC then StartEscape(f)
    else if b == BEL || b == CAN || b == SUB then f.(mode := Ground)
    else f
  }

  function Dispatch(f: Filter, b: byte): (Filter, seq<byte>) {
    match f.mode
    case Ground => InGround(f, b)
    case Escape => InEscape(f, b)
    case EscapeIntermediate => InEscapeIntermediate(f, b)
    case Csi => InCsi(f, b)
    case CsiIgnore => InCsiIgnore(f, b)
    case ControlString => (InControlString(f, b), [])
  }

  /** A whole character, its replacement when malformed, nothing for a C1 control. */
  function FinishUtf8(bytes: seq<byte>): seq<byte> {
    match Decode(bytes)
    case Some(points) => if forall c :: c in points ==> !IsC1(c) then bytes else []
    case None => REPLACEMENT
  }

  function Push(f: Filter, b: byte): (Filter, seq<byte>) {
    if f.want == 0 then Dispatch(f, b)
    else if Tail(b) then
      var bytes := f.utf8 + [b];
      if |bytes| == f.want then (f.(utf8 := [], want := 0), FinishUtf8(bytes))
      else (f.(utf8 := bytes), [])
    else
      var (g, out) := Dispatch(f.(utf8 := [], want := 0), b);
      (g, REPLACEMENT + out)
  }

  function Feed(f: Filter, input: seq<byte>): (Filter, seq<byte>) { Fold(Push, f, input) }

  /** Where the writes of the guest are cut does not matter. */
  lemma FeedConcat(f: Filter, a: seq<byte>, b: seq<byte>)
    ensures var (g, first) := Feed(f, a);
      Feed(f, a + b) == (Feed(g, b).0, first + Feed(g, b).1)
  {
    FoldConcat(Push, f, a, b);
  }

  /** One more byte, after bytes that left the filter in `g`. */
  lemma FeedSnoc(f: Filter, a: seq<byte>, b: byte, g: Filter, out: seq<byte>)
    requires Feed(f, a) == (g, out)
    ensures Feed(f, a + [b]) == (Push(g, b).0, out + Push(g, b).1)
  {
    FoldSnoc(Push, f, a, b);
  }

  /** One more byte, after bytes that let nothing out. */
  lemma FeedQuiet(f: Filter, a: seq<byte>, b: byte, g: Filter, h: Filter, out: seq<byte>)
    requires Feed(f, a) == (g, []) && Push(g, b) == (h, out)
    ensures Feed(f, a + [b]) == (h, out)
  {
    FoldSnoc(Push, f, a, b);
    assert [] + out == out;
  }

  // ------------------------------------------------------------- invariant

  predicate IsLead(s: seq<byte>, want: nat) {
    && 1 <= |s| < want && Length(s[0]) == want
    && forall i :: 1 <= i < |s| ==> Tail(s[i])
  }

  predicate Valid(f: Filter) {
    && (if f.want == 0 then f.utf8 == [] else f.mode.Ground? && IsLead(f.utf8, f.want))
    && (f.mode.Escape? ==> f.held == [ESC])
    && (f.mode.EscapeIntermediate? ==>
          && 2 <= |f.held| <= MAX_SEQ && f.held[0] == ESC
          && forall i :: 1 <= i < |f.held| ==> 0x20 <= f.held[i] <= 0x2f)
    && (f.mode.Csi? ==>
          && 2 <= |f.held| <= MAX_SEQ && f.held[0] == ESC && f.held[1] == OPEN_BRACKET
          && forall i :: 2 <= i < |f.held| ==> 0x20 <= f.held[i] <= 0x3f)
  }

  lemma PushKeepsValid(f: Filter, b: byte)
    requires Valid(f)
    ensures Valid(Push(f, b).0)
  {}

  lemma {:induction false} FeedKeepsValid(f: Filter, input: seq<byte>)
    requires Valid(f)
    ensures Valid(Feed(f, input).0)
  {
    if input != [] {
      var before, last := input[..|input| - 1], input[|input| - 1];
      FeedKeepsValid(f, before);
      PushKeepsValid(Feed(f, before).0, last);
      FeedSnoc(f, before, last, Feed(f, before).0, Feed(f, before).1);
      assert input == before + [last];
    }
  }

  // ------------------------------------------------ the language let through

  /** What a safe text is made of: plain bytes, characters of more than one byte, and
      whole escape sequences. */
  datatype Token =
    | Plain(b: byte)
    | Wide(bytes: seq<byte>)
    | Simple(final: byte)
    | SelectSet(inter: byte, final: byte)
    | Control(body: seq<byte>)

  predicate IsSafe(t: Token) {
    match t
    case Plain(b) => b <= 0x7f && b != ESC && b != ENQ
    case Wide(c) => IsChar(c) && |c| > 1 && !IsC1(CodePoint(c))
    case Simple(final) => IsSimpleFinal(final)
    case SelectSet(inter, final) => IsSetSelector(inter) && IsSet(final)
    case Control(body) => CsiAllowed(body) && |body| < MAX_SEQ
  }

  function Bytes(t: Token): seq<byte> {
    match t
    case Plain(b) => [b]
    case Wide(c) => c
    case Simple(final) => [ESC, final]
    case SelectSet(inter, final) => [ESC, inter, final]
    case Control(body) => [ESC, OPEN_BRACKET] + body
  }

  predicate AllSafe(ts: seq<Token>) { forall i :: 0 <= i < |ts| ==> IsSafe(ts[i]) }

  function Text(ts: seq<Token>): seq<byte> { ConcatMap(Bytes, ts) }

  /** The safe language: texts made of safe tokens. */
  ghost predicate InLanguage(text: seq<byte>) {
    exists ts: seq<Token> :: AllSafe(ts) && text == Text(ts)
  }

  lemma OneToken(t: Token)
    ensures Text([t]) == Bytes(t)
  {
    assert [t] == [] + [t];
    ConcatMapSnoc(Bytes, [], t);
  }

  // -------------------------------------------- every output is in the language

  /** The characters the filter collects are well formed exactly when they are one
      character. */
  lemma FinishedChar(bytes: seq<byte>)
    requires 2 <= |bytes| == Length(bytes[0]) && forall i :: 1 <= i < |bytes| ==> Tail(bytes[i])
    ensures Decode(bytes) == if IsChar(bytes) then Some([CodePoint(bytes)]) else None
  {
    assert bytes[..|bytes|] == bytes && bytes[|bytes|..] == [];
    if IsChar(bytes) {
      assert bytes == bytes + [];
      DecodeCons(bytes, []);
      assert [CodePoint(bytes)] + [] == [CodePoint(bytes)];
    }
  }

  /** One byte adds whole tokens only, two at most. */
  lemma PushEmitsTokens(f: Filter, b: byte) returns (ts: seq<Token>)
    requires Valid(f)
    ensures AllSafe(ts) && Push(f, b).1 == Text(ts)
  {
    if f.want == 0 {
      ts := DispatchEmitsTokens(f, b);
    } else if Tail(b) {
      ts := TailEmitsTokens(f, b);
    } else {
      var rest := DispatchEmitsTokens(f.(utf8 := [], want := 0), b);
      ts := [Wide(REPLACEMENT)] + rest;
      ConcatMapConcat(Bytes, [Wide(REPLACEMENT)], rest);
      OneToken(Wide(REPLACEMENT));
    }
  }

  lemma TailEmitsTokens(f: Filter, b: byte) returns (ts: seq<Token>)
    requires Valid(f) && f.want != 0 && Tail(b)
    ensures AllSafe(ts) && Push(f, b).1 == Text(ts)
  {
    var bytes := f.utf8 + [b];
    if |bytes| < f.want { return []; }
    ts := FinishEmitsTokens(bytes);
  }

  lemma ReplacementIsSafe()
    ensures IsSafe(Wide(REPLACEMENT))
  {
    assert CodePoint(REPLACEMENT) == 0xfffd;
  }

  lemma NoToken()
    ensures Text([]) == []
  {
  }

  lemma FinishEmitsTokens(bytes: seq<byte>) returns (ts: seq<Token>)
    requires 2 <= |bytes| == Length(bytes[0]) && forall i :: 1 <= i < |bytes| ==> Tail(bytes[i])
    ensures AllSafe(ts) && FinishUtf8(bytes) == Text(ts)
  {
    hide Decode, IsChar, CodePoint, Text;
    FinishedChar(bytes);
    ReplacementIsSafe();
    OneToken(Wide(REPLACEMENT));
    OneToken(Wide(bytes));
    NoToken();
    if !IsChar(bytes) { return [Wide(REPLACEMENT)]; }
    assert CodePoint(bytes) in [CodePoint(bytes)];
    ts := if IsC1(CodePoint(bytes)) then [] else [Wide(bytes)];
  }

  lemma DispatchEmitsTokens(f: Filter, b: byte) returns (ts: seq<Token>)
    requires Valid(f) && f.want == 0
    ensures AllSafe(ts) && Dispatch(f, b).1 == Text(ts)
  {
    var out := Dispatch(f, b).1;
    var t := DispatchEmitsToken(f, b);
    ts := if out == [] then [] else [t];
    OneToken(t);
  }

  lemma DispatchEmitsToken(f: Filter, b: byte) returns (t: Token)
    requires Valid(f) && f.want == 0
    ensures Dispatch(f, b).1 != [] ==> IsSafe(t) && Dispatch(f, b).1 == Bytes(t)
  {
    hide IsChar, CodePoint, CsiAllowed;
    ReplacementIsSafe();
    t := Plain(b);
    if b >= 0x80 {
      t := Wide(REPLACEMENT);
    } else if f.mode.Escape? && b > 0x1f {
      t := Simple(b);
    } else if f.mode.EscapeIntermediate? && b > 0x1f {
      t := SelectSet(f.held[1], b);
    } else if f.mode.Csi? && b > 0x1f {
      t := Control((f.held + [b])[2..]);
    }
  }

  lemma {:induction false} FeedEmitsTokens(f: Filter, input: seq<byte>) returns (ts: seq<Token>)
    requires Valid(f)
    ensures AllSafe(ts) && Feed(f, input).1 == Text(ts)
  {
    if input == [] { return []; }
    var before, last := input[..|input| - 1], input[|input| - 1];
    assert input == before + [last];
    FeedSnoc(f, before, last, Feed(f, before).0, Feed(f, before).1);
    var a := FeedEmitsTokens(f, before);
    FeedKeepsValid(f, before);
    var b := PushEmitsTokens(Feed(f, before).0, last);
    ts := a + b;
    ConcatMapConcat(Bytes, a, b);
  }

  // ------------------------------------------ the language passes unchanged

  predicate AtRest(f: Filter) { f.mode.Ground? && f.want == 0 && f.utf8 == [] }

  lemma StartsEscape(f: Filter)
    requires AtRest(f)
    ensures Feed(f, [ESC]) == (StartEscape(f), [])
  {
    assert [ESC] == [] + [ESC];
    FeedQuiet(f, [], ESC, f, StartEscape(f), []);
  }

  /** The filter holds a control sequence back byte by byte, up to its limit. */
  lemma {:induction false} HoldsBody(f: Filter, rest: seq<byte>)
    requires AtRest(f) && IsHeld(rest) && |rest| <= MAX_SEQ - 2
    ensures var whole := [ESC, OPEN_BRACKET] + rest;
      Feed(f, whole) == (f.(mode := Csi, held := whole), [])
  {
    if rest == [] {
      StartsEscape(f);
      assert [ESC, OPEN_BRACKET] + rest == [ESC] + [OPEN_BRACKET] == [ESC, OPEN_BRACKET];
      FeedQuiet(f, [ESC], OPEN_BRACKET, StartEscape(f), f.(mode := Csi, held := [ESC, OPEN_BRACKET]), []);
    } else {
      var n := |rest| - 1;
      var held := [ESC, OPEN_BRACKET] + rest[..n];
      HoldsBody(f, rest[..n]);
      assert [ESC, OPEN_BRACKET] + rest == held + [rest[n]];
      FeedQuiet(f, held, rest[n], f.(mode := Csi, held := held), f.(mode := Csi, held := held + [rest[n]]), []);
    }
  }

  /** A text that leaves the filter where it started and comes out as it went in. */
  predicate Passes(f: Filter, text: seq<byte>) { AtRest(Feed(f, text).0) && Feed(f, text).1 == text }

  lemma ControlPasses(f: Filter, body: seq<byte>)
    requires AtRest(f) && IsSafe(Control(body))
    ensures Passes(f, Bytes(Control(body)))
  {
    AllowedIsBody(body);
    var rest, final := body[..|body| - 1], body[|body| - 1];
    assert body == rest + [final];
    HeldThenReleased(f, rest, final);
  }

  lemma HeldThenReleased(f: Filter, rest: seq<byte>, final: byte)
    requires AtRest(f) && IsHeld(rest) && |rest| <= MAX_SEQ - 2 && Terminal.IsFinal(final) && CsiAllowed(rest + [final])
    ensures Passes(f, [ESC, OPEN_BRACKET] + (rest + [final]))
  {
    var held := [ESC, OPEN_BRACKET] + rest;
    var g := f.(mode := Csi, held := held);
    HoldsBody(f, rest);
    assert held + [final] == [ESC, OPEN_BRACKET] + (rest + [final]);
    ReleasesBody(g, final, rest + [final]);
    FeedQuiet(f, held, final, g, g.(mode := Ground, held := held + [final]), held + [final]);
  }

  lemma ReleasesBody(f: Filter, final: byte, body: seq<byte>)
    requires f.mode.Csi? && f.want == 0 && CsiAllowed(body) && Terminal.IsFinal(final)
    requires f.held + [final] == [ESC, OPEN_BRACKET] + body
    ensures Push(f, final) == (f.(mode := Ground, held := f.held + [final]), f.held + [final])
  {
    assert (f.held + [final])[2..] == body;
  }

  lemma {:induction false} Collects(f: Filter, c: seq<byte>, k: nat)
    requires AtRest(f) && IsChar(c) && |c| > 1 && 0 < k < |c|
    ensures Feed(f, c[..k]) == (f.(utf8 := c[..k], want := |c|), [])
  {
    if k == 1 {
      assert c[..1] == [] + [c[0]];
      FeedQuiet(f, [], c[0], f, f.(utf8 := [c[0]], want := |c|), []);
    } else {
      Collects(f, c, k - 1);
      assert c[..k] == c[..k - 1] + [c[k - 1]];
      assert Tail(c[k - 1]);
      FeedQuiet(f, c[..k - 1], c[k - 1], f.(utf8 := c[..k - 1], want := |c|), f.(utf8 := c[..k], want := |c|), []);
    }
  }

  lemma WidePasses(f: Filter, c: seq<byte>)
    requires AtRest(f) && IsSafe(Wide(c))
    ensures Passes(f, c)
  {
    var n := |c| - 1;
    Collects(f, c, n);
    assert c == c[..n] + [c[n]];
    assert Tail(c[n]);
    FinishedChar(c);
    FeedQuiet(f, c[..n], c[n], f.(utf8 := c[..n], want := |c|), f, c);
  }

  lemma SelectSetPasses(f: Filter, inter: byte, final: byte)
    requires AtRest(f) && IsSafe(SelectSet(inter, final))
    ensures Passes(f, [ESC, inter, final])
  {
    StartsEscape(f);
    var e := StartEscape(f);
    assert [ESC, inter] == [ESC] + [inter] && [ESC, inter, final] == [ESC, inter] + [final];
    var g := e.(mode := EscapeIntermediate, held := [ESC, inter]);
    FeedQuiet(f, [ESC], inter, e, g, []);
    FeedQuiet(f, [ESC, inter], final, g, g.(mode := Ground), [ESC, inter, final]);
  }

  lemma TokenPasses(f: Filter, t: Token)
    requires AtRest(f) && IsSafe(t)
    ensures Passes(f, Bytes(t))
  {
    match t
    case Plain(b) =>
      assert [b] == [] + [b];
      FeedQuiet(f, [], b, f, f, [b]);
    case Wide(c) => WidePasses(f, c);
    case Simple(final) =>
      StartsEscape(f);
      assert [ESC, final] == [ESC] + [final];
      FeedQuiet(f, [ESC], final, StartEscape(f), StartEscape(f).(mode := Ground), [ESC, final]);
    case SelectSet(inter, final) => SelectSetPasses(f, inter, final);
    case Control(body) => ControlPasses(f, body);
  }

  lemma {:induction false} TextPasses(f: Filter, ts: seq<Token>)
    requires AtRest(f) && AllSafe(ts)
    ensures Passes(f, Text(ts))
  {
    if ts != [] {
      var before, last := ts[..|ts| - 1], ts[|ts| - 1];
      TextPasses(f, before);
      assert Text(ts) == Text(before) + Bytes(last);
      FeedConcat(f, Text(before), Bytes(last));
      TokenPasses(Feed(f, Text(before)).0, last);
    }
  }

  // ---------------------------------------------------------------- theorems

  /** The filter is a retraction onto its language: every output is in it, and every
      text of the language passes unchanged. */
  lemma OutputIsInLanguage(input: seq<byte>)
    ensures InLanguage(Feed(FRESH, input).1)
  {
    var ts := FeedEmitsTokens(FRESH, input);
  }

  lemma LanguagePassesUnchanged(text: seq<byte>)
    ensures InLanguage(text) <==> Passes(FRESH, text)
  {
    if InLanguage(text) {
      var ts: seq<Token> :| AllSafe(ts) && text == Text(ts);
      TextPasses(FRESH, ts);
    }
    if Feed(FRESH, text).1 == text { OutputIsInLanguage(text); }
  }

  lemma FilteringTwiceIsFilteringOnce(input: seq<byte>)
    ensures Feed(FRESH, Feed(FRESH, input).1).1 == Feed(FRESH, input).1
  {
    OutputIsInLanguage(input);
    LanguagePassesUnchanged(Feed(FRESH, input).1);
  }
}
