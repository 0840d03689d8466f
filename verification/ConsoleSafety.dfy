/** What the operator's terminal does with anything a guest writes, through the
    filter. */
module ConsoleSafety {
  import opened Base
  import opened Folds
  import opened Utf8
  import opened CsiRules
  import opened ConsoleFilter
  import Terminal

  /** A text the terminal takes whole: well-formed UTF-8 with no C1 control and no
      ENQ, that leaves it in its ground state having done harmless things only. */
  ghost predicate TakenWhole(text: seq<byte>) {
    && Decode(text).Some?
    && (forall c :: c in Decode(text).value ==> !IsC1(c) && c != ENQ)
    && var (state, acts) := Terminal.Run(Terminal.Ground, Decode(text).value);
       state == Terminal.Ground && AllHarmless(acts)
  }

  ghost predicate AllHarmless(acts: seq<Terminal.Action>) {
    forall i :: 0 <= i < |acts| ==> Terminal.Harmless(acts[i])
  }

  /** The terminal takes `text` from its ground state back to it, doing `acts`. */
  predicate Takes(text: seq<byte>, acts: seq<Terminal.Action>) {
    Decode(text).Some? && Terminal.Run(Terminal.Ground, Decode(text).value) == (Terminal.Ground, acts)
  }

  lemma TakesBoth(a: seq<byte>, x: seq<Terminal.Action>, b: seq<byte>, y: seq<Terminal.Action>)
    requires Takes(a, x) && Takes(b, y)
    ensures Takes(a + b, x + y)
  {
    DecodeConcat(a, b);
    FoldConcat(Terminal.Next, Terminal.Ground, Decode(a).value, Decode(b).value);
  }

  lemma TakesAscii(text: seq<byte>, acts: seq<Terminal.Action>)
    requires forall i :: 0 <= i < |text| ==> text[i] < 0x80
    requires Terminal.Run(Terminal.Ground, text) == (Terminal.Ground, acts)
    ensures Takes(text, acts)
  {
    DecodeAscii(text);
  }

  lemma TakesPlain(b: byte)
    requires b < 0x80 && b != ESC
    ensures Takes([b], [if b < 0x20 then Terminal.Execute(b) else Terminal.Print(b)])
  {
    assert [b] == [] + [b];
    var acts := [if b < 0x20 then Terminal.Execute(b) else Terminal.Print(b)];
    Terminal.RunSnoc(Terminal.Ground, [], b, Terminal.Ground, Terminal.Ground, acts);
    TakesAscii([b], acts);
  }

  lemma TakesWide(c: seq<byte>)
    requires IsChar(c) && |c| > 1 && !IsC1(CodePoint(c))
    ensures Takes(c, [Terminal.Print(CodePoint(c))])
  {
    FinishedChar(c);
    CodePointRange(c);
    assert [CodePoint(c)] == [] + [CodePoint(c)];
    Terminal.RunSnoc(Terminal.Ground, [], CodePoint(c), Terminal.Ground, Terminal.Ground, [Terminal.Print(CodePoint(c))]);
  }

  lemma TakesSimple(final: byte)
    requires IsSimpleFinal(final)
    ensures Takes([ESC, final], [Terminal.EscDispatch([], final)])
  {
    RunEscape();
    assert [ESC, final] == [ESC] + [final];
    Terminal.RunSnoc(Terminal.Ground, [ESC], final, Terminal.Escape, Terminal.Ground, [Terminal.EscDispatch([], final)]);
    TakesAscii([ESC, final], [Terminal.EscDispatch([], final)]);
  }

  lemma TakesSelectSet(inter: byte, final: byte)
    requires IsSetSelector(inter) && IsSet(final)
    ensures Takes([ESC, inter, final], [Terminal.EscDispatch([inter], final)])
  {
    RunEscape();
    var mid, acts := Terminal.EscapeInter([inter]), [Terminal.EscDispatch([inter], final)];
    assert [ESC, inter] == [ESC] + [inter] && [ESC, inter, final] == [ESC, inter] + [final];
    Terminal.RunSnoc(Terminal.Ground, [ESC], inter, Terminal.Escape, mid, []);
    Terminal.RunSnoc(Terminal.Ground, [ESC, inter], final, mid, Terminal.Ground, acts);
    TakesAscii([ESC, inter, final], acts);
  }

  lemma TakesControl(body: seq<byte>)
    requires CsiAllowed(body)
    ensures Takes([ESC, OPEN_BRACKET] + body, Dispatches(body))
  {
    AllowedIsBody(body);
    JudgesAsTerminal(body);
    ControlIsAscii(body);
    ControlRuns(body);
    TakesAscii([ESC, OPEN_BRACKET] + body, Dispatches(body));
  }

  lemma TakenTogether(a: seq<byte>, b: seq<byte>)
    requires TakenWhole(a) && TakenWhole(b)
    ensures TakenWhole(a + b)
  {
    DecodeConcat(a, b);
    FoldConcat(Terminal.Next, Terminal.Ground, Decode(a).value, Decode(b).value);
  }

  /** What it takes so, when all of it is harmless. */
  lemma TakesIsTaken(text: seq<byte>, acts: seq<Terminal.Action>)
    requires Takes(text, acts) && AllHarmless(acts)
    requires forall c :: c in Decode(text).value ==> !IsC1(c) && c != ENQ
    ensures TakenWhole(text)
  {
  }

  lemma TakenAscii(text: seq<byte>, acts: seq<Terminal.Action>)
    requires forall i :: 0 <= i < |text| ==> text[i] < 0x80 && text[i] != ENQ
    requires Takes(text, acts) && AllHarmless(acts)
    ensures TakenWhole(text)
  {
    DecodeAscii(text);
  }

  lemma ControlRuns(body: seq<int>)
    requires Terminal.Run(Terminal.CsiParam([]), body).0 == Terminal.Ground
    ensures Terminal.Run(Terminal.Ground, [ESC, OPEN_BRACKET] + body) == (Terminal.Ground, Dispatches(body))
  {
    RunStart();
    FoldConcat(Terminal.Next, Terminal.Ground, [ESC, OPEN_BRACKET], body);
    assert [] + Dispatches(body) == Dispatches(body);
  }

  lemma ControlIsAscii(body: seq<byte>)
    requires IsBody(body)
    ensures forall i :: 0 <= i < |body| ==> 0x20 <= body[i] < 0x80
  {
    forall i | 0 <= i < |body| - 1 ensures 0x20 <= body[i] < 0x80 {
      assert body[i] == body[..|body| - 1][i];
    }
  }

  lemma ControlIsTaken(body: seq<byte>)
    requires CsiAllowed(body)
    ensures TakenWhole([ESC, OPEN_BRACKET] + body)
  {
    AllowedIsBody(body);
    JudgesAsTerminal(body);
    ControlIsAscii(body);
    TakesControl(body);
    TakenAscii([ESC, OPEN_BRACKET] + body, Dispatches(body));
  }

  lemma RunStart()
    ensures Terminal.Run(Terminal.Ground, [ESC, OPEN_BRACKET]) == (Terminal.CsiParam([]), [])
  {
    RunEscape();
    assert [ESC, OPEN_BRACKET] == [ESC] + [OPEN_BRACKET];
    Terminal.RunSnoc(Terminal.Ground, [ESC], OPEN_BRACKET, Terminal.Escape, Terminal.CsiParam([]), []);
  }

  lemma RunEscape()
    ensures Terminal.Run(Terminal.Ground, [ESC]) == (Terminal.Escape, [])
  {
    assert [ESC] == [] + [ESC];
    Terminal.RunSnoc(Terminal.Ground, [], ESC, Terminal.Ground, Terminal.Escape, []);
  }

  lemma TokenIsTaken(t: Token)
    requires IsSafe(t)
    ensures TakenWhole(Bytes(t))
  {
    match t
    case Plain(b) =>
      TakesPlain(b);
      TakenAscii([b], [if b < 0x20 then Terminal.Execute(b) else Terminal.Print(b)]);
    case Wide(c) =>
      FinishedChar(c);
      CodePointRange(c);
      TakesWide(c);
      TakesIsTaken(c, [Terminal.Print(CodePoint(c))]);
    case Simple(final) =>
      TakesSimple(final);
      TakenAscii([ESC, final], [Terminal.EscDispatch([], final)]);
    case SelectSet(inter, final) =>
      TakesSelectSet(inter, final);
      TakenAscii([ESC, inter, final], [Terminal.EscDispatch([inter], final)]);
    case Control(body) => ControlIsTaken(body);
  }

  lemma {:induction false} TextIsTaken(ts: seq<Token>)
    requires AllSafe(ts)
    ensures TakenWhole(Text(ts))
  {
    if ts != [] {
      var before, last := ts[..|ts| - 1], ts[|ts| - 1];
      TextIsTaken(before);
      TokenIsTaken(last);
      TakenTogether(Text(before), Bytes(last));
    }
  }

  /** Whatever bytes a guest writes, in whatever pieces, what has come out so far is
      well-formed UTF-8 with no C1 control and no ENQ, and a terminal that reads it is
      back in its ground state and has done only what a console needs. */
  lemma ConsoleIsHarmless(writes: seq<seq<byte>>)
    ensures TakenWhole(Output(FRESH, writes).1)
  {
    ChunksDoNotMatter(FRESH, writes);
    var ts := FeedEmitsTokens(FRESH, Join(writes));
    TextIsTaken(ts);
  }

  /** The output of one call of the filter after another. */
  function Output(f: Filter, writes: seq<seq<byte>>): (Filter, seq<byte>) { Fold(Feed, f, writes) }

  function Join(writes: seq<seq<byte>>): seq<byte> { ConcatMap((w: seq<byte>) => w, writes) }

  lemma {:induction false} ChunksDoNotMatter(f: Filter, writes: seq<seq<byte>>)
    ensures Output(f, writes) == Feed(f, Join(writes))
  {
    if writes != [] {
      var before, last := writes[..|writes| - 1], writes[|writes| - 1];
      ChunksDoNotMatter(f, before);
      FeedConcat(f, Join(before), last);
      assert Join(writes) == Join(before) + last;
    }
  }
}
