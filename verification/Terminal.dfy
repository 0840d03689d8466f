/** A reference terminal: what one does with a stream of code points, after sections
    5.4 (control sequences) and 5.6 (control strings) of ECMA-48, with C1 controls
    acted on in their one-character form. It knows nothing of the filter. */
module Terminal {
  import opened Base
  import opened Folds

  const BEL: int := 0x07
  const CAN: int := 0x18
  const SUB: int := 0x1a
  const ESC: int := 0x1b

  datatype State =
    | Ground
    | Escape
    | EscapeInter(inter: seq<int>)
    | CsiParam(params: seq<int>)
    | CsiInter(params: seq<int>, inter: seq<int>)
    | CsiIgnore
    | ControlString

  datatype Action =
    | Print(c: int)
    | Execute(c: int)
    | EscDispatch(inter: seq<int>, final: int)
    | CsiDispatch(params: seq<int>, inter: seq<int>, final: int)
    | StringStart(kind: int)

  function C(c: char): int { c as int }

  predicate IsOneOf(c: int, chars: set<char>) { 0 <= c < 0x80 && c as char in chars }

  predicate IsParameter(c: int) { 0x30 <= c <= 0x3f }

  predicate IsPrivateMarker(c: int) { 0x3c <= c <= 0x3f }

  predicate IsIntermediate(c: int) { 0x20 <= c <= 0x2f }

  predicate IsFinal(c: int) { 0x40 <= c <= 0x7e }

  /** What one code point does in a state. */
  function Next(s: State, c: int): (State, seq<Action>) {
    if c == CAN || c == SUB then (Ground, [Execute(c)])
    else if c == ESC then (Escape, [])
    else if 0x80 <= c <= 0x9f then OneByteControl(c)
    else if s.ControlString? then (if c == BEL then Ground else s, [])
    else if c < 0x20 then (s, [Execute(c)])
    else
      match s
      case Ground => (Ground, [Print(c)])
      case Escape =>
        if IsIntermediate(c) then (EscapeInter([c]), [])
        else if c == C('[') then (CsiParam([]), [])
        else if IsOneOf(c, {'P', 'X', ']', '^', '_'}) then
          (ControlString, [StringStart(c)])
        else if c <= 0x7e then (Ground, [EscDispatch([], c)])
        else Outside(s, c)
      case EscapeInter(inter) =>
        if IsIntermediate(c) then (EscapeInter(inter + [c]), [])
        else if c <= 0x7e then (Ground, [EscDispatch(inter, c)])
        else Outside(s, c)
      case CsiParam(params) =>
        if IsPrivateMarker(c) && params != [] then (CsiIgnore, [])
        else if IsParameter(c) then (CsiParam(params + [c]), [])
        else if IsIntermediate(c) then (CsiInter(params, [c]), [])
        else if IsFinal(c) then (Ground, [CsiDispatch(params, [], c)])
        else Outside(s, c)
      case CsiInter(params, inter) =>
        if IsIntermediate(c) then (CsiInter(params, inter + [c]), [])
        else if IsParameter(c) then (CsiIgnore, [])
        else if IsFinal(c) then (Ground, [CsiDispatch(params, inter, c)])
        else Outside(s, c)
      case CsiIgnore =>
        if IsFinal(c) then (Ground, []) else if c <= 0x7f then (s, []) else Outside(s, c)
      case ControlString => (s, [])
  }

  /** A C1 control stands for ESC and the character 0x40 below it. */
  function OneByteControl(c: int): (State, seq<Action>) {
    match c
    case 0x9b => (CsiParam([]), [])
    case 0x9c => (Ground, [])
    case 0x90 | 0x98 | 0x9d | 0x9e | 0x9f => (ControlString, [StringStart(c - 0x40)])
    case _ => (Ground, [EscDispatch([], c - 0x40)])
  }

  /** DEL inside a sequence is ignored, and text beyond ASCII ends it. */
  function Outside(s: State, c: int): (State, seq<Action>) {
    if c == 0x7f then (s, []) else (Ground, [Print(c)])
  }

  function Run(s: State, text: seq<int>): (State, seq<Action>) { Fold(Next, s, text) }

  lemma RunSnoc(s: State, a: seq<int>, c: int, t: State, u: State, acts: seq<Action>)
    requires Run(s, a) == (t, []) && Next(t, c) == (u, acts)
    ensures Run(s, a + [c]) == (u, acts)
  {
    FoldSnoc(Next, s, a, c);
    assert [] + acts == acts;
  }

  // ------------------------------------------------------- what is harmless

  /** The DEC private modes that change only the display or the cursor keys. */
  const DISPLAY_MODES: set<int> := {1, 5, 6, 7, 12, 25, 47, 1047, 1048, 1049, 2004}

  predicate IsDigit(c: int) { C('0') <= c <= C('9') }

  /** The number a field denotes, read as decimal digits. */
  function Value(field: seq<int>): int {
    if field == [] then 0
    else 10 * Value(field[..|field| - 1]) + (field[|field| - 1] - C('0'))
  }

  function Join(fields: seq<seq<int>>): seq<int>
    requires fields != []
  {
    if |fields| == 1 then fields[0] else fields[0] + [C(';')] + Join(fields[1..])
  }

  predicate IsDisplayMode(field: seq<int>) {
    field != [] && (forall c :: c in field ==> IsDigit(c)) && Value(field) in DISPLAY_MODES
  }

  /** Every mode the terminal reads from `params` only changes the display. */
  ghost predicate OnlyDisplayModes(params: seq<int>) {
    exists fields: seq<seq<int>> ::
      fields != [] && params == Join(fields) && forall f :: f in fields ==> IsDisplayMode(f)
  }

  predicate IsNumberList(params: seq<int>) {
    forall c :: c in params ==> IsDigit(c) || c == C(';') || c == C(':')
  }

  /** Controls that move the cursor, erase, insert, delete, scroll, repeat, or set
      colors and margins. */
  const CONSOLE_FINALS: set<char> :=
    {'@', 'A', 'B', 'C', 'D', 'E', 'F', 'G', 'H', 'I', 'K', 'L', 'M', 'P', 'S', 'X', 'Z',
     'a', 'b', 'd', 'e', 'f', 'm', 'r', 's', '`'}

  /** A control sequence a console needs, as the terminal has parsed it. A private
      marker is the first of `params`. */
  ghost predicate IsConsoleControl(params: seq<int>, inter: seq<int>, final: int) {
    var private := params != [] && params[0] == C('?');
    var numbers := if private then params[1..] else params;
    && IsNumberList(numbers)
    && if inter == [] then
         || (!private && IsOneOf(final, CONSOLE_FINALS))
         || (!private && final == C('T') && C(';') !in numbers)
         || (final == C('J') && numbers in {[], [C('0')], [C('1')], [C('2')]})
         || (!private && final == C('u') && numbers == [])
         || (!private && IsOneOf(final, {'h', 'l'}) && numbers == [C('4')])
         || (private && IsOneOf(final, {'h', 'l'}) && OnlyDisplayModes(numbers))
         || (private && final == C('K'))
       else
         !private && ((inter == [C(' ')] && final == C('q')) || (inter == [C('!')] && final == C('p')))
  }

  /** What a guest may make the operator's terminal do: show text, run the C0
      controls but ENQ, save and restore the cursor, index, switch the keypad, select
      a character set, and the control sequences above. No C1 control, no string. */
  ghost predicate Harmless(a: Action) {
    match a
    case Print(c) => c >= 0x20 && !(0x80 <= c <= 0x9f)
    case Execute(c) => 0 <= c < 0x20 && c != 0x05
    case EscDispatch(inter, final) =>
      || (inter == [] && IsOneOf(final, {'7', '8', 'D', 'E', 'M', '=', '>'}))
      || (|inter| == 1 && IsOneOf(inter[0], {'(', ')', '*', '+'}) && IsOneOf(final, {'0', 'A', 'B'}))
    case CsiDispatch(params, inter, final) => IsConsoleControl(params, inter, final)
    case StringStart(_) => false
  }
}
