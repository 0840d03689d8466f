/** Which control sequences the console filter lets through. */
module CsiRules {
  import opened Base
  import opened Terminal

  const U32_MAX: int := 0xffff_ffff

  const DEC_MODES: seq<int> := [1, 5, 6, 7, 12, 25, 47, 1047, 1048, 1049, 2004]

  /** The index of the first intermediate byte, or the length when there is none. */
  function FirstIntermediate(s: seq<int>): (k: nat)
    ensures k <= |s|
    ensures forall i :: 0 <= i < k ==> !IsIntermediate(s[i])
    ensures k < |s| ==> IsIntermediate(s[k])
  {
    if s == [] || IsIntermediate(s[0]) then 0 else 1 + FirstIntermediate(s[1..])
  }

  function Split(p: seq<int>): (fields: seq<seq<int>>)
    ensures fields != [] && Join(fields) == p
    ensures forall f :: f in fields ==> C(';') !in f
  {
    if p == [] then [[]]
    else
      var rest := Split(p[1..]);
      if p[0] == C(';') then
        assert Join([[]] + rest) == [] + [C(';')] + Join(rest);
        [[]] + rest
      else
        assert p == [p[0]] + p[1..];
        [[p[0]] + rest[0]] + rest[1..]
  }

  /** The number a field parses to as a 32-bit integer, if it does. */
  function ParseU32(field: seq<int>): Option<int> {
    var digits := if |field| > 1 && field[0] == C('+') then field[1..] else field;
    if digits == [] || (exists c :: c in digits && !IsDigit(c)) || Value(digits) > U32_MAX then None
    else Some(Value(digits))
  }

  predicate ModesAllowed(params: seq<int>) {
    params != [] && forall f :: f in Split(params) ==> ParseU32(f).Some? && ParseU32(f).value in DEC_MODES
  }

  predicate EraseAllowed(params: seq<int>) {
    params == [] || params == [C('0')] || params == [C('1')] || params == [C('2')]
  }

  predicate AllIntermediate(s: seq<int>) {
    forall i :: 0 <= i < |s| ==> IsIntermediate(s[i])
  }

  predicate MarkerAt(rest: seq<int>) {
    rest != [] && IsOneOf(rest[0], {'<', '=', '>', '?'})
  }

  /** Whether the sequence with `body` after `ESC [` may reach the terminal. */
  predicate CsiAllowed(body: seq<int>) {
    body != [] &&
    var fin, rest := body[|body| - 1], body[..|body| - 1];
    var marker := if MarkerAt(rest) then Some(rest[0]) else None;
    var tail := if marker.Some? then rest[1..] else rest;
    var split := FirstIntermediate(tail);
    var params, inter := tail[..split], tail[split..];
    && IsNumberList(params)
    && AllIntermediate(inter)
    && FinalAllowed(marker, params, inter, fin)
  }

  predicate FinalAllowed(marker: Option<int>, params: seq<int>, inter: seq<int>, fin: int) {
    if 0 <= fin < 0x80 then
      var c := fin as char;
      if marker.None? && inter == []
         && (c == '@' || 'A' <= c <= 'I' || 'K' <= c <= 'M' || c == 'P' || c == 'S' || c == 'X' || c == 'Z'
             || c == 'a' || c == 'b' || 'd' <= c <= 'f' || c == 'm' || c == 'r' || c == 's' || c == '`') then true
      else if marker.None? && inter == [] && c == 'T' then C(';') !in params
      else if (marker.None? || marker == Some(C('?'))) && inter == [] && c == 'J' then EraseAllowed(params)
      else if marker.None? && inter == [] && c == 'u' then params == []
      else if marker.None? && inter == [] && (c == 'h' || c == 'l') then params == [C('4')]
      else if marker == Some(C('?')) && inter == [] && (c == 'h' || c == 'l') then ModesAllowed(params)
      else if marker == Some(C('?')) && inter == [] && c == 'K' then true
      else
        || (marker.None? && inter == [C(' ')] && c == 'q')
        || (marker.None? && inter == [C('!')] && c == 'p')
    else false
  }

  // ------------------------------------------------- agreement on the modes

  lemma {:induction false} SplitOfJoin(fields: seq<seq<int>>)
    requires fields != [] && forall f :: f in fields ==> C(';') !in f
    ensures Split(Join(fields)) == fields
    decreases |fields|, |fields[0]|
  {
    var f := fields[0];
    if f != [] {
      var shorter := [f[1..]] + fields[1..];
      assert f[0] in f;
      forall g | g in shorter ensures C(';') !in g {
        assert forall c :: c in f[1..] ==> c in f;
        assert f in fields && (g == f[1..] || g in fields);
      }
      SplitOfJoin(shorter);
      assert shorter[1..] == fields[1..];
      assert Join(fields)[1..] == Join(shorter) && Join(fields)[0] == f[0];
      assert f == [f[0]] + f[1..];
    } else if |fields| > 1 {
      SplitOfJoin(fields[1..]);
      assert Join(fields)[1..] == Join(fields[1..]);
      assert fields == [[]] + fields[1..];
    }
  }

  /** A field of digits and colons parses to an allowed mode exactly when it is the
      number of a display mode. */
  lemma FieldAgrees(f: seq<int>)
    requires forall c :: c in f ==> IsDigit(c) || c == C(':')
    ensures (ParseU32(f).Some? && ParseU32(f).value in DEC_MODES) <==> IsDisplayMode(f)
  {
    assert forall v: int :: v in DEC_MODES <==> v in DISPLAY_MODES;
    assert f != [] ==> f[0] in f && f[0] != C('+');
    assert forall v: int :: v in DISPLAY_MODES ==> v <= U32_MAX;
  }

  lemma ModesAgree(params: seq<int>)
    requires IsNumberList(params)
    ensures ModesAllowed(params) <==> OnlyDisplayModes(params)
  {
    var fields := Split(params);
    JoinMembers(fields);
    forall f | f in fields ensures forall c :: c in f ==> IsDigit(c) || c == C(':') {}
    forall f | f in fields { FieldAgrees(f); }
    if ModesAllowed(params) {
      assert params == Join(fields);
    }
    if OnlyDisplayModes(params) {
      var fs: seq<seq<int>> :| fs != [] && params == Join(fs) && forall f :: f in fs ==> IsDisplayMode(f);
      SplitOfJoin(fs);
      assert params != [] by { JoinMembers(fs); assert fs[0] in fs && fs[0][0] in fs[0]; }
    }
  }

  lemma {:induction false} JoinMembers(fields: seq<seq<int>>)
    requires fields != []
    ensures forall f, c :: f in fields && c in f ==> c in Join(fields)
  {
    if |fields| > 1 { JoinMembers(fields[1..]); }
  }

  // ---------------------------------------- agreement with the terminal's parse

  /** Parameter and intermediate bytes only. */
  predicate IsHeld(s: seq<int>) {
    forall i :: 0 <= i < |s| ==> 0x20 <= s[i] <= 0x3f
  }

  predicate IsBody(body: seq<int>) {
    body != [] && IsFinal(body[|body| - 1]) && IsHeld(body[..|body| - 1])
  }

  /** A private marker that is not the first parameter byte. */
  predicate StrayMarker(params: seq<int>) {
    exists i :: 0 < i < |params| && IsPrivateMarker(params[i])
  }

  /** Where the terminal is with these parameter bytes and what followed them. */
  function Shape(params: seq<int>, inter: seq<int>): State {
    if StrayMarker(params) || !AllIntermediate(inter) then CsiIgnore
    else if inter == [] then CsiParam(params)
    else CsiInter(params, inter)
  }

  /** Where the terminal is after the bytes of a control sequence but its final. */
  function Collected(rest: seq<int>): State {
    var k := FirstIntermediate(rest);
    Shape(rest[..k], rest[k..])
  }

  lemma {:induction false} FirstStays(s: seq<int>, c: int)
    ensures FirstIntermediate(s + [c]) ==
            if FirstIntermediate(s) < |s| || IsIntermediate(c) then FirstIntermediate(s) else |s| + 1
  {
    if s == [] {
      assert s + [c] == [c];
    } else {
      assert (s + [c])[1..] == s[1..] + [c];
      FirstStays(s[1..], c);
    }
  }

  lemma ShapeGrows(params: seq<int>, inter: seq<int>, c: int)
    requires 0x20 <= c <= 0x3f
    ensures Next(Shape(params, inter), c) ==
            (if inter == [] && !IsIntermediate(c) then Shape(params + [c], []) else Shape(params, inter + [c]), [])
  {
    IntermediatesGrow(inter, c);
    StrayGrows(params, c);
    assert inter == [] ==> inter + [c] == [c];
  }

  lemma CollectedGrows(s: seq<int>, c: int)
    requires 0x20 <= c <= 0x3f
    ensures Next(Collected(s), c) == (Collected(s + [c]), [])
  {
    FirstStays(s, c);
    var k, t := FirstIntermediate(s), s + [c];
    ShapeGrows(s[..k], s[k..], c);
    if k < |s| || IsIntermediate(c) {
      assert t[..k] == s[..k] && t[k..] == s[k..] + [c];
    } else {
      assert t[..|t|] == s[..k] + [c] && t[|t|..] == [];
    }
  }

  lemma IntermediatesGrow(s: seq<int>, c: int)
    ensures AllIntermediate(s + [c]) <==> AllIntermediate(s) && IsIntermediate(c)
  {
    assert (s + [c])[|s|] == c;
    assert forall i :: 0 <= i < |s| ==> (s + [c])[i] == s[i];
  }

  lemma StrayGrows(s: seq<int>, c: int)
    ensures StrayMarker(s + [c]) <==> StrayMarker(s) || (s != [] && IsPrivateMarker(c))
  {
    if StrayMarker(s) {
      var i :| 0 < i < |s| && IsPrivateMarker(s[i]);
      assert (s + [c])[i] == s[i];
    }
    if s != [] && IsPrivateMarker(c) { assert (s + [c])[|s|] == c; }
    if StrayMarker(s + [c]) {
      var i :| 0 < i < |s + [c]| && IsPrivateMarker((s + [c])[i]);
      assert i < |s| ==> s[i] == (s + [c])[i];
    }
  }

  lemma {:induction false} RunCollects(rest: seq<int>)
    requires IsHeld(rest)
    ensures Run(CsiParam([]), rest) == (Collected(rest), [])
  {
    if rest != [] {
      var n := |rest| - 1;
      var a, c := rest[..n], rest[n];
      assert rest == a + [c];
      RunCollects(a);
      CollectedGrows(a, c);
      RunSnoc(CsiParam([]), a, c, Collected(a), Collected(rest), []);
    }
  }

  /** What the terminal does with a control sequence. */
  function Dispatches(body: seq<int>): seq<Action> { Run(CsiParam([]), body).1 }

  lemma TerminalDispatch(rest: seq<int>, fin: int)
    requires IsHeld(rest) && IsFinal(fin)
    ensures var k := FirstIntermediate(rest);
      Run(CsiParam([]), rest + [fin]) ==
      (Ground, if Collected(rest).CsiIgnore? then [] else [CsiDispatch(rest[..k], rest[k..], fin)])
  {
    RunCollects(rest);
    var k := FirstIntermediate(rest);
    assert k == |rest| ==> rest[..k] == rest && rest[k..] == [];
    RunSnoc(CsiParam([]), rest, fin, Collected(rest), Ground,
            if Collected(rest).CsiIgnore? then [] else [CsiDispatch(rest[..k], rest[k..], fin)]);
  }

  /** The filter's rules and the terminal agree on every control sequence: it is let
      through exactly when the terminal, on its own parse of the bytes, dispatches one
      control a console needs. */
  lemma JudgesAsTerminal(body: seq<int>)
    requires IsBody(body)
    ensures Run(CsiParam([]), body).0 == Ground
    ensures CsiAllowed(body) <==> |Dispatches(body)| == 1 && Harmless(Dispatches(body)[0])
  {
    var fin, rest := body[|body| - 1], body[..|body| - 1];
    assert body == rest + [fin];
    TerminalJudges(rest, fin);
    FilterAgrees(rest, fin);
  }

  lemma TerminalJudges(rest: seq<int>, fin: int)
    requires IsHeld(rest) && IsFinal(fin)
    ensures var k, acts := FirstIntermediate(rest), Dispatches(rest + [fin]);
      && Run(CsiParam([]), rest + [fin]).0 == Ground
      && ((|acts| == 1 && Harmless(acts[0])) <==>
            !Collected(rest).CsiIgnore? && IsConsoleControl(rest[..k], rest[k..], fin))
  {
    TerminalDispatch(rest, fin);
  }

  lemma FilterAgrees(rest: seq<int>, fin: int)
    requires IsHeld(rest) && IsFinal(fin)
    ensures var k := FirstIntermediate(rest);
      CsiAllowed(rest + [fin]) <==>
      !Collected(rest).CsiIgnore? && IsConsoleControl(rest[..k], rest[k..], fin)
  {
    var k := FirstIntermediate(rest);
    if IsNumberList(Numbers(rest)) { ModesAgree(Numbers(rest)); }
    MarkerFacts(rest);
    FinalsAgree(MarkerOf(rest), Numbers(rest), rest[k..], fin, rest[..k]);
    FilterJudges(rest, fin);
  }

  lemma MarkerFacts(rest: seq<int>)
    ensures var m, all := MarkerOf(rest), rest[..FirstIntermediate(rest)];
      && (m.Some? ==> all != [] && all[0] == m.value && Numbers(rest) == all[1..] && IsPrivateMarker(m.value))
      && (m.None? ==> all == Numbers(rest) && (all != [] ==> !IsPrivateMarker(all[0])))
  {
    if rest != [] { MarkerChars(rest[0]); }
  }

  lemma MarkerChars(c: int)
    ensures IsOneOf(c, {'<', '=', '>', '?'}) <==> IsPrivateMarker(c)
  {}

  function MarkerOf(rest: seq<int>): Option<int> {
    if MarkerAt(rest) then Some(rest[0]) else None
  }

  /** The parameter bytes as the terminal collects them, without the marker. */
  function Numbers(rest: seq<int>): seq<int> {
    var all := rest[..FirstIntermediate(rest)];
    if MarkerAt(rest) && all != [] then all[1..] else all
  }

  lemma FilterJudges(rest: seq<int>, fin: int)
    requires IsHeld(rest)
    ensures var k := FirstIntermediate(rest);
      && (CsiAllowed(rest + [fin]) <==>
            IsNumberList(Numbers(rest)) && AllIntermediate(rest[k..])
            && FinalAllowed(MarkerOf(rest), Numbers(rest), rest[k..], fin))
      && (MarkerAt(rest) ==> k > 0)
      && (Collected(rest).CsiIgnore? ==> !IsNumberList(Numbers(rest)) || !AllIntermediate(rest[k..]))
      && (!Collected(rest).CsiIgnore? ==> AllIntermediate(rest[k..]))
  {
    var body := rest + [fin];
    assert body[..|body| - 1] == rest && body[|body| - 1] == fin;
    SplitsAgree(rest);
  }

  /** The filter's split of the bytes and the terminal's. */
  lemma SplitsAgree(rest: seq<int>)
    requires IsHeld(rest)
    ensures var k, marked := FirstIntermediate(rest), MarkerAt(rest);
      var tail := if marked then rest[1..] else rest;
      var split := FirstIntermediate(tail);
      && (marked ==> k > 0)
      && tail[..split] == (if marked then rest[..k][1..] else rest[..k])
      && tail[split..] == rest[k..]
      && (Collected(rest).CsiIgnore? ==> !IsNumberList(tail[..split]) || !AllIntermediate(rest[k..]))
      && (!Collected(rest).CsiIgnore? ==> AllIntermediate(rest[k..]))
  {
    var k := FirstIntermediate(rest);
    if StrayMarker(rest[..k]) {
      var i :| 0 < i < k && IsPrivateMarker(rest[..k][i]);
      var params := if MarkerAt(rest) then rest[..k][1..] else rest[..k];
      assert rest[..k][i] == if MarkerAt(rest) then params[i - 1] else params[i];
      assert rest[..k][i] in params;
    }
  }

  lemma FinalsAgree(marker: Option<int>, params: seq<int>, inter: seq<int>, fin: int, all: seq<int>)
    requires IsFinal(fin)
    requires marker.Some? ==> all != [] && all[0] == marker.value && params == all[1..] && IsPrivateMarker(marker.value)
    requires marker.None? ==> all == params && (all != [] ==> !IsPrivateMarker(all[0]))
    requires IsNumberList(params) ==> (ModesAllowed(params) <==> OnlyDisplayModes(params))
    ensures (IsNumberList(params) && FinalAllowed(marker, params, inter, fin)) <==> IsConsoleControl(all, inter, fin)
  {
    if marker.Some? && marker.value != C('?') {
      assert all[0] in all;
    }
    CharSets(fin);
  }

  lemma CharSets(fin: int)
    requires IsFinal(fin)
    ensures var c := fin as char;
      IsOneOf(fin, CONSOLE_FINALS) <==>
      || c == '@' || 'A' <= c <= 'I' || 'K' <= c <= 'M' || c == 'P' || c == 'S' || c == 'X' || c == 'Z'
      || c == 'a' || c == 'b' || 'd' <= c <= 'f' || c == 'm' || c == 'r' || c == 's' || c == '`'
    ensures IsOneOf(fin, {'h', 'l'}) <==> fin == C('h') || fin == C('l')
  {}

  /** What is let through is a whole control sequence. */
  lemma AllowedIsBody(body: seq<int>)
    requires CsiAllowed(body)
    ensures IsBody(body)
  {
    var rest := body[..|body| - 1];
    var marked := MarkerAt(rest);
    var tail := if marked then rest[1..] else rest;
    var split := FirstIntermediate(tail);
    forall i | 0 <= i < |rest| ensures 0x20 <= rest[i] <= 0x3f {
      if marked && i == 0 {
        MarkerChars(rest[0]);
      } else {
        var j := if marked then i - 1 else i;
        assert rest[i] == tail[j];
        if j < split { assert tail[..split][j] in tail[..split]; } else { assert tail[split..][j - split] == tail[j]; }
      }
    }
  }
}
