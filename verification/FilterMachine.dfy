/** The console filter as the object that holds it, changed in place by each byte. */
module FilterMachine {
  import opened Base
  import opened CsiRules
  import opened ConsoleFilter

  lemma Extend(f: Filter, input: seq<byte>, i: nat, g: Filter, out: seq<byte>)
    requires i < |input| && Feed(f, input[..i]) == (g, out)
    ensures Feed(f, input[..i + 1]) == (Push(g, input[i]).0, out + Push(g, input[i]).1)
  {
    assert input[..i + 1] == input[..i] + [input[i]];
    FeedSnoc(f, input[..i], input[i], g, out);
  }

  class Machine {
    var mode: Mode
    var held: seq<byte>
    var utf8: array<byte>
    var utf8Len: nat
    var utf8Want: nat

    /** The machine's buffers agree with a valid filter. */
    ghost predicate Ok()
      reads this, utf8
    {
      && utf8.Length == 4
      && utf8Len <= 4 && utf8Want <= 4
      && Valid(View())
    }

    ghost function View(): Filter
      reads this, utf8
    {
      Filter(mode, held, if utf8Want == 0 || utf8Len > utf8.Length then [] else utf8[..utf8Len], utf8Want)
    }

    constructor ()
      ensures Ok() && fresh(utf8) && View() == FRESH
    {
      mode, held, utf8Len, utf8Want := Ground, [], 0, 0;
      utf8 := new byte[4](_ => 0);
    }

    /** Filters `input` and appends what may reach the terminal to `out`. */
    method FilterInput(input: seq<byte>, out: seq<byte>) returns (grown: seq<byte>)
      requires Ok()
      modifies this, utf8
      ensures Ok() && utf8 == old(utf8)
      ensures View() == Feed(old(View()), input).0
      ensures grown == out + Feed(old(View()), input).1
    {
      hide ConsoleFilter.Push, Valid;
      grown := out;
      ghost var start, emitted := View(), [];
      for i := 0 to |input|
        invariant Ok() && utf8 == old(utf8)
        invariant Feed(start, input[..i]) == (View(), emitted)
        invariant grown == out + emitted
      {
        Extend(start, input, i, View(), emitted);
        ghost var more := ConsoleFilter.Push(View(), input[i]).1;
        grown := Push(input[i], grown);
        assert out + emitted + more == out + (emitted + more);
        emitted := emitted + more;
      }
      assert input[..|input|] == input;
    }

    method Push(b: byte, out: seq<byte>) returns (grown: seq<byte>)
      requires Ok()
      modifies this, utf8
      ensures Ok() && utf8 == old(utf8)
      ensures View() == ConsoleFilter.Push(old(View()), b).0
      ensures grown == out + ConsoleFilter.Push(old(View()), b).1
    {
      PushKeepsValid(View(), b);
      grown := out;
      if utf8Want != 0 {
        if 0x80 <= b <= 0xbf {
          ghost var bytes := utf8[..utf8Len] + [b];
          utf8[utf8Len] := b;
          utf8Len := utf8Len + 1;
          assert utf8[..utf8Len] == bytes;
          if utf8Len == utf8Want {
            utf8Want := 0;
            grown := out + FinishUtf8(utf8[..utf8Len]);
          }
          return;
        }
        grown := out + REPLACEMENT;
        utf8Want := 0;
      }
      ghost var mid := View();
      match mode {
        case Ground => grown := InGround(b, grown);
        case Escape => grown := InEscape(b, grown);
        case EscapeIntermediate => grown := InEscapeIntermediate(b, grown);
        case Csi => grown := InCsi(b, grown);
        case CsiIgnore => grown := InCsiIgnore(b, grown);
        case ControlString =>
          if b == ESC { StartEscape(); } else if b == BEL || b == CAN || b == SUB { mode := Ground; }
      }
    }

    method StartEscape()
      modifies this`held, this`mode
      ensures held == [ESC] && mode == Escape
    {
      held := [];
      held := held + [ESC];
      mode := Escape;
    }

    method Hold(b: byte)
      modifies this`held, this`mode
      ensures if |old(held)| < MAX_SEQ then held == old(held) + [b] && mode == old(mode)
              else held == old(held) && mode == if old(mode).Csi? then CsiIgnore else old(mode)
    {
      if |held| < MAX_SEQ {
        held := held + [b];
      } else if mode.Csi? {
        mode := CsiIgnore;
      }
    }

    /** The handlers of a byte by mode. None is called inside a character. */
    method InGround(b: byte, out: seq<byte>) returns (grown: seq<byte>)
      requires utf8.Length == 4 && utf8Len <= 4 && utf8Want == 0
      modifies this, utf8
      ensures utf8 == old(utf8) && utf8Len <= 4 && utf8Want <= 4
      ensures View() == ConsoleFilter.InGround(old(View()), b).0
      ensures grown == out + ConsoleFilter.InGround(old(View()), b).1
    {
      grown := out;
      if b == ESC {
        StartEscape();
      } else if b <= 0x1f {
        if b != ENQ { grown := out + [b]; }
      } else if b <= 0x7f {
        grown := out + [b];
      } else {
        var want := if 0xc2 <= b <= 0xdf then 2 else if 0xe0 <= b <= 0xef then 3
                    else if 0xf0 <= b <= 0xf4 then 4 else 0;
        if want == 0 { return out + REPLACEMENT; }
        utf8[0] := b;
        utf8Len := 1;
        utf8Want := want;
      }
    }

    method InEscape(b: byte, out: seq<byte>) returns (grown: seq<byte>)
      requires utf8.Length == 4 && utf8Len <= 4 && utf8Want == 0
      modifies this, utf8
      ensures utf8 == old(utf8) && utf8Len <= 4 && utf8Want <= 4
      ensures View() == ConsoleFilter.InEscape(old(View()), b).0
      ensures grown == out + ConsoleFilter.InEscape(old(View()), b).1
    {
      grown := out;
      if b == ESC {
        StartEscape();
      } else if b == CAN || b == SUB {
        mode := Ground;
      } else if b <= 0x1f {
        if b != ENQ { grown := out + [b]; }
      } else if b == OPEN_BRACKET {
        held := held + [b];
        mode := Csi;
      } else if b in {0x5d, 0x50, 0x58, 0x5e, 0x5f} {
        mode := ControlString;
      } else if b <= 0x2f {
        held := held + [b];
        mode := EscapeIntermediate;
      } else if IsSimpleFinal(b) {
        grown := out + [ESC] + [b];
        mode := Ground;
      } else {
        mode := Ground;
        if b > 0x7f { grown := InGround(b, out); }
      }
    }

    method InEscapeIntermediate(b: byte, out: seq<byte>) returns (grown: seq<byte>)
      requires utf8.Length == 4 && utf8Len <= 4 && utf8Want == 0
      modifies this, utf8
      ensures utf8 == old(utf8) && utf8Len <= 4 && utf8Want <= 4
      ensures View() == ConsoleFilter.InEscapeIntermediate(old(View()), b).0
      ensures grown == out + ConsoleFilter.InEscapeIntermediate(old(View()), b).1
    {
      grown := out;
      if b == ESC {
        StartEscape();
      } else if b == CAN || b == SUB {
        mode := Ground;
      } else if b <= 0x1f {
        if b != ENQ { grown := out + [b]; }
      } else if b <= 0x2f {
        Hold(b);
      } else if b <= 0x7e {
        if |held| == 2 && IsSetSelector(held[1]) && IsSet(b) {
          grown := out + held + [b];
          assert grown == out + (held + [b]);
        }
        mode := Ground;
      } else if b > 0x7f {
        mode := Ground;
        grown := InGround(b, out);
      }
    }

    method InCsi(b: byte, out: seq<byte>) returns (grown: seq<byte>)
      requires utf8.Length == 4 && utf8Len <= 4 && utf8Want == 0 && |held| >= 1
      modifies this, utf8
      ensures utf8 == old(utf8) && utf8Len <= 4 && utf8Want <= 4
      ensures View() == ConsoleFilter.InCsi(old(View()), b).0
      ensures grown == out + ConsoleFilter.InCsi(old(View()), b).1
    {
      grown := out;
      if b == ESC {
        StartEscape();
      } else if b == CAN || b == SUB {
        mode := Ground;
      } else if b <= 0x1f {
        if b != ENQ { grown := out + [b]; }
      } else if b <= 0x3f {
        Hold(b);
      } else if b <= 0x7e {
        held := held + [b];
        if CsiAllowed(held[2..]) { grown := out + held; }
        mode := Ground;
      } else if b > 0x7f {
        mode := Ground;
        grown := InGround(b, out);
      }
    }

    method InCsiIgnore(b: byte, out: seq<byte>) returns (grown: seq<byte>)
      requires utf8.Length == 4 && utf8Len <= 4 && utf8Want == 0
      modifies this, utf8
      ensures utf8 == old(utf8) && utf8Len <= 4 && utf8Want <= 4
      ensures View() == ConsoleFilter.InCsiIgnore(old(View()), b).0
      ensures grown == out + ConsoleFilter.InCsiIgnore(old(View()), b).1
    {
      grown := out;
      if b == ESC {
        StartEscape();
      } else if b == CAN || b == SUB || 0x40 <= b <= 0x7e {
        mode := Ground;
      } else if b <= 0x1f {
        if b != ENQ { grown := out + [b]; }
      } else if b > 0x7f {
        mode := Ground;
        grown := InGround(b, out);
      }
    }
  }
}
