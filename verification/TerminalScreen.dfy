/** The terminal that replays what a redrawn region emits (ECMA-48 sections 8.3.9, 8.3.19, 8.3.22, 8.3.39 and 8.3.41, in part). */
module TerminalScreen {
  import opened Texts

  const ESC := '\U{1B}'

  /** Screen lines and a cursor that is always on one of them. */
  datatype Display = Display(lines: seq<string>, row: nat, column: nat) {
    predicate Valid() { row < |lines| }
    function Line(): string
      requires Valid()
    {
      lines[row]
    }
    function WithLine(line: string): (d: Display)
      requires Valid()
      ensures d.Valid()
    {
      this.(lines := lines[row := line])
    }
  }

  function Spaces(n: nat): string { seq(n, _ => ' ') }

  function Blanks(n: nat): seq<string> { seq(n, _ => []) }

  function Ensured(lines: seq<string>, row: nat): (r: seq<string>)
    ensures row < |r| && lines <= r
  {
    if row < |lines| then lines else lines + Blanks(row + 1 - |lines|)
  }

  /** The line with one character placed at a column, padded with spaces up to it. */
  function Placed(line: string, column: nat, c: char): (r: string)
    ensures |r| == (if column < |line| then |line| else column + 1) && r[column] == c
    ensures forall k :: 0 <= k < |r| && k != column ==> r[k] == if k < |line| then line[k] else ' '
  {
    (if column < |line| then line else line + Spaces(column + 1 - |line|))[column := c]
  }

  function WriteChar(d: Display, c: char): (r: Display)
    requires d.Valid()
    ensures r.Valid()
  {
    if c == '\n' then Display(Ensured(d.lines, d.row + 1), d.row + 1, 0)
    else if c == '\r' then d.(column := 0)
    else d.WithLine(Placed(d.Line(), d.column, c)).(column := d.column + 1)
  }

  function WriteText(d: Display, text: string): (r: Display)
    requires d.Valid()
    ensures r.Valid()
    decreases |text|
  {
    if text == [] then d else WriteText(WriteChar(d, text[0]), text[1..])
  }

  predicate Parameter(c: char) { Digit(c) || c == ';' || c == '?' }

  predicate Letter(c: char) { 'A' <= c <= 'Z' || 'a' <= c <= 'z' }

  function Count(parameters: string): nat { if Digits(parameters) then Number(parameters) else 1 }

  function EraseLine(d: Display, parameters: string): (r: Display)
    requires d.Valid()
    ensures r.Valid()
  {
    var line := d.Line();
    if parameters == "2" then d.WithLine([])
    else if parameters == "1" then
      var n := if d.column + 1 < |line| then d.column + 1 else |line|;
      d.WithLine(Spaces(n) + line[n..])
    else d.WithLine(if d.column < |line| then line[..d.column] else line)
  }

  function Control(d: Display, parameters: string, final: char): (r: Display)
    requires d.Valid()
    ensures r.Valid()
  {
    var count := Count(parameters);
    if final == 'K' then EraseLine(d, parameters)
    else if final == 'A' then d.(row := if d.row < count then 0 else d.row - count)
    else if final == 'B' then d.(lines := Ensured(d.lines, d.row + count), row := d.row + count)
    else if final == 'G' then d.(column := if count == 0 then 0 else count - 1)
    else if final == 'J' && parameters in {"", "0"} then EraseLine(d.(lines := d.lines[..d.row + 1]), "0")
    else d
  }

  function ParameterCount(text: string): (n: nat)
    ensures n <= |text| && (forall k :: 0 <= k < n ==> Parameter(text[k])) && (n < |text| ==> !Parameter(text[n]))
  {
    if text == [] || !Parameter(text[0]) then 0 else 1 + ParameterCount(text[1..])
  }

  /** The length of the control sequence the text starts with, or zero. */
  function ControlLength(text: string): (n: nat)
    ensures n == 0 || 3 <= n <= |text|
  {
    if |text| < 2 || text[0] != ESC || text[1] != '[' then 0 else
    var n := ParameterCount(text[2..]);
    if 2 + n < |text| && Letter(text[2 + n]) then n + 3 else 0
  }

  /** What a terminal shows after a text: one character or one whole control sequence at a time. */
  function Replay(d: Display, text: string): (r: Display)
    requires d.Valid()
    ensures r.Valid()
    decreases |text|
  {
    if text == [] then d else
    var n := ControlLength(text);
    if n == 0 then Replay(WriteChar(d, text[0]), text[1..])
    else Replay(Control(d, text[2..n - 1], text[n - 1]), text[n..])
  }

  // ----- What each control function does -----

  lemma {:induction false} ParametersStop(parameters: string, rest: string)
    requires (forall k :: 0 <= k < |parameters| ==> Parameter(parameters[k])) && (rest == [] || !Parameter(rest[0]))
    ensures ParameterCount(parameters + rest) == |parameters|
  {
    if parameters == [] {
      assert parameters + rest == rest;
    } else {
      assert (parameters + rest)[1..] == parameters[1..] + rest;
      ParametersStop(parameters[1..], rest);
    }
  }

  /** ESC, a bracket, any parameters and an ASCII letter are one control sequence, and nothing else is. */
  lemma ControlLengthMeans(text: string)
    ensures forall parameters: string, final: char, rest: string ::
              && text == [ESC, '['] + (parameters + ([final] + rest))
              && (forall k :: 0 <= k < |parameters| ==> Digit(parameters[k]) || parameters[k] == ';' || parameters[k] == '?')
              && (65 <= final as int <= 90 || 97 <= final as int <= 122)
              ==> ControlLength(text) == |parameters| + 3
    ensures var n := ControlLength(text);
            n > 0 ==> && n >= 3 && text[0] == ESC && text[1] == '['
                      && (forall k :: 2 <= k < n - 1 ==> Digit(text[k]) || text[k] == ';' || text[k] == '?')
                      && (65 <= text[n - 1] as int <= 90 || 97 <= text[n - 1] as int <= 122)
  {
    forall parameters: string, final: char, rest: string |
      && text == [ESC, '['] + (parameters + ([final] + rest))
      && (forall k :: 0 <= k < |parameters| ==> Digit(parameters[k]) || parameters[k] == ';' || parameters[k] == '?')
      && (65 <= final as int <= 90 || 97 <= final as int <= 122)
      ensures ControlLength(text) == |parameters| + 3
    {
      assert text[2..] == parameters + ([final] + rest);
      ParametersStop(parameters, [final] + rest);
    }
    var n := ControlLength(text);
    if n > 0 { assert forall k :: 2 <= k < n - 1 ==> text[2..][k - 2] == text[k]; }
  }

  /** A count is the number its digits write, and one when the parameters are no plain number. */
  lemma CountMeans(parameters: string)
    ensures Count(parameters) == if parameters != "" && forall k :: 0 <= k < |parameters| ==> Digit(parameters[k]) then Number(parameters) else 1
  {
  }

  /** The line before a column, and nothing after it. */
  ghost predicate CutAt(now: string, was: string, column: nat) {
    now <= was && |now| == if column < |was| then column else |was|
  }

  /** Erasing in the line changes nothing else: all of it, up to and including the cursor, or from the cursor on. */
  lemma EraseMeans(d: Display, parameters: string)
    requires d.Valid()
    ensures var r := EraseLine(d, parameters);
            && r.row == d.row && r.column == d.column && |r.lines| == |d.lines|
            && (forall k :: 0 <= k < |d.lines| && k != d.row ==> r.lines[k] == d.lines[k])
            && (parameters == "2" ==> r.Line() == "")
            && (parameters == "1" ==> |r.Line()| == |d.Line()|
                                      && forall k :: 0 <= k < |d.Line()| ==> r.Line()[k] == if k <= d.column then ' ' else d.Line()[k])
            && (parameters !in {"1", "2"} ==> CutAt(r.Line(), d.Line(), d.column))
  {
  }

  /** Up stops at the top, down grows the screen by blank lines, a column counts from one, erasing below the cursor keeps what is above and
      before it, and any other control function shows nothing. */
  lemma ControlMeans(d: Display, parameters: string, final: char)
    requires d.Valid()
    ensures var (r, n) := (Control(d, parameters, final), Count(parameters));
            && (final == 'A' ==> r.lines == d.lines && r.column == d.column && r.row + n == if d.row < n then n else d.row)
            && (final == 'B' ==> && r.row == d.row + n && r.column == d.column && d.lines <= r.lines
                                 && (|r.lines| == |d.lines| || |r.lines| == r.row + 1)
                                 && forall k :: |d.lines| <= k < |r.lines| ==> r.lines[k] == "")
            && (final == 'G' ==> r.lines == d.lines && r.row == d.row && r.column + 1 == if n == 0 then 1 else n)
            && (final == 'J' && parameters in {"", "0"} ==>
                  && r.row == d.row && r.column == d.column && |r.lines| == d.row + 1 && r.lines[..d.row] == d.lines[..d.row]
                  && CutAt(r.Line(), d.Line(), d.column))
            && (final !in {'A', 'B', 'G', 'J', 'K'} || (final == 'J' && parameters !in {"", "0"}) ==> r == d)
            && (final == 'K' ==> r == EraseLine(d, parameters))
  {
    hide Digits, Number;
    EraseMeans(d.(lines := d.lines[..d.row + 1]), "0");
  }

  // ----- Cutting a text in two -----

  /** The cut falls inside a control sequence of the whole text. */
  ghost predicate Cuts(a: string, b: string) {
    exists p :: 0 <= p < |a| && ControlLength(a[p..] + b) > |a| - p
  }

  lemma {:induction false} ParametersOfPrefix(a: string, b: string)
    ensures ParameterCount(a) < |a| ==> ParameterCount(a + b) == ParameterCount(a)
    ensures ParameterCount(a) == |a| ==> ParameterCount(a + b) >= |a|
  {
    if a == [] {
    } else {
      assert (a + b)[1..] == a[1..] + b;
      ParametersOfPrefix(a[1..], b);
    }
  }

  lemma ControlOfPrefix(a: string, b: string)
    requires a != [] && ControlLength(a + b) <= |a|
    ensures ControlLength(a) == ControlLength(a + b)
  {
    if |a| >= 2 {
      assert (a + b)[2..] == a[2..] + b;
      ParametersOfPrefix(a[2..], b);
    }
  }

  /** Feeding a text in two pieces equals feeding it whole unless the cut falls inside a control sequence. */
  lemma {:induction false} FeedInPieces(d: Display, a: string, b: string)
    requires d.Valid() && !Cuts(a, b)
    ensures Replay(Replay(d, a), b) == Replay(d, a + b)
    decreases |a|
  {
    hide Control, WriteChar, ControlLength;
    if a == [] {
      assert a + b == b;
      ReplayNothing(d);
    } else {
      assert a[0..] + b == a + b;
      ControlOfPrefix(a, b);
      var n := ControlLength(a);
      var step := if n == 0 then 1 else n;
      var next := if n == 0 then WriteChar(d, a[0]) else Control(d, a[2..n - 1], a[n - 1]);
      assert (a + b)[step..] == a[step..] + b;
      forall p | 0 <= p < |a[step..]| ensures ControlLength(a[step..][p..] + b) <= |a[step..]| - p {
        assert a[step..][p..] == a[step + p..];
      }
      FeedInPieces(next, a[step..], b);
      assert n > 0 ==> (a + b)[2..n - 1] == a[2..n - 1];
    }
  }

  /** A cut inside a sequence can change what is shown. */
  lemma CutSequenceShowsItsTail()
    ensures var d := Display([[]], 0, 0);
            Cuts([ESC, '['], "K") && Replay(Replay(d, [ESC, '[']), "K") != Replay(d, [ESC, '['] + "K")
  {
    var d := Display([[]], 0, 0);
    var a := [ESC, '['];
    assert a[0..] + "K" == [ESC, '[', 'K'];
    assert ControlLength([ESC, '[', 'K']) == 3;
    assert Replay(d, [ESC, '[', 'K']) == Control(d, "", 'K') == d by {
      assert [ESC, '[', 'K'][2..2] == "" && [ESC, '[', 'K'][3..] == [];
    }
    assert ControlLength(a) == 0 && a[1..] == ['['];
    assert Replay(d, a) == Replay(WriteChar(d, ESC), ['[']);
    var e := WriteChar(d, ESC);
    assert Replay(e, ['[']) == WriteChar(e, '[');
    var f := WriteChar(e, '[');
    assert Replay(f, "K") == WriteChar(f, 'K');
    assert |WriteChar(f, 'K').lines[0]| == 3;
  }

  // ----- Redrawing in place -----

  predicate Plain(text: string) { forall k :: 0 <= k < |text| ==> text[k] != '\n' && text[k] != '\r' && text[k] != ESC }

  lemma {:induction false} ReplayPlain(d: Display, text: string, rest: string)
    requires d.Valid() && Plain(text)
    ensures Replay(d, text + rest) == Replay(WriteText(d, text), rest)
    decreases |text|
  {
    if text == [] {
      assert text + rest == rest;
    } else {
      assert (text + rest)[1..] == text[1..] + rest;
      ReplayPlain(WriteChar(d, text[0]), text[1..], rest);
    }
  }

  lemma {:induction false} WriteFromStart(d: Display, done: string, text: string)
    requires d.Valid() && Plain(text) && d.column == |done| && d.Line() == done
    ensures WriteText(d, text) == d.WithLine(done + text).(column := |done + text|)
    decreases |text|
  {
    if text == [] {
      assert done + text == done;
    } else {
      assert Placed(done, |done|, text[0]) == done + [text[0]];
      WriteFromStart(WriteChar(d, text[0]), done + [text[0]], text[1..]);
      assert done + [text[0]] + text[1..] == done + text;
    }
  }

  const ERASE := [ESC, '[', '2', 'K']
  const UP := [ESC, '[', '1', 'A']

  lemma ReplayErase(d: Display, rest: string)
    requires d.Valid()
    ensures Replay(d, ERASE + rest) == Replay(d.WithLine([]), rest)
  {
    var text := ERASE + rest;
    assert text[2..][0] == '2' && text[2..][1..][0] == 'K';
    assert ControlLength(text) == 4 && text[2..3] == "2" && text[4..] == rest;
  }

  lemma ReplayUp(d: Display, rest: string)
    requires d.Valid() && d.row > 0
    ensures Replay(d, UP + rest) == Replay(d.(row := d.row - 1), rest)
  {
    var text := UP + rest;
    assert text[2..][0] == '1' && text[2..][1..][0] == 'A';
    assert ControlLength(text) == 4 && text[2..3] == "1" && text[4..] == rest;
    assert Number("1") == 1 by { assert "1"[..0] == ""; }
  }

  lemma ReplayReturn(d: Display, rest: string)
    requires d.Valid()
    ensures Replay(d, "\r" + rest) == Replay(d.(column := 0), rest)
    ensures Replay(d, "\n" + rest) == Replay(WriteChar(d, '\n'), rest)
  {
    assert ("\r" + rest)[1..] == rest && ("\n" + rest)[1..] == rest;
  }

  /** Erases the cursor line and the given number of lines above it. */
  function EraseUp(above: nat): string {
    if above == 0 then ERASE else ERASE + (UP + EraseUp(above - 1))
  }

  function Joined(texts: seq<string>): string
    requires texts != []
  {
    if |texts| == 1 then texts[0] else texts[0] + ("\n" + Joined(texts[1..]))
  }

  /** What a live region emits to replace a drawing of the given height. */
  function Redraw(height: nat, texts: seq<string>): string
    requires height > 0 && texts != []
  {
    "\r" + (EraseUp(height - 1) + Joined(texts))
  }

  /** Earlier lines, then the drawing with the cursor on its last line, then blank lines. */
  ghost predicate Shows(d: Display, earlier: seq<string>, texts: seq<string>) {
    && texts != [] && |earlier| + |texts| <= |d.lines| && d.row == |earlier| + |texts| - 1
    && d.lines == earlier + texts + Blanks(|d.lines| - |earlier| - |texts|)
  }

  /** The display after the cursor line and the lines above it are erased, from the top one. */
  function ErasedUp(d: Display, above: nat): (r: Display)
    requires d.Valid() && above <= d.row
    ensures r.Valid()
  {
    Display(d.lines[..d.row - above] + Blanks(above + 1) + d.lines[d.row + 1..], d.row - above, d.column)
  }

  lemma ErasedOneMore(d: Display, above: nat)
    requires d.Valid() && 0 < above <= d.row
    ensures ErasedUp(d, above) == ErasedUp(d.WithLine([]).(row := d.row - 1), above - 1)
  {
    var f := d.WithLine([]).(row := d.row - 1);
    assert f.lines[..d.row - above] == d.lines[..d.row - above];
    assert f.lines[d.row..] == [[]] + d.lines[d.row + 1..];
    assert Blanks(above) + [[]] == Blanks(above + 1);
  }

  lemma {:induction false} ReplayEraseUp(d: Display, above: nat, rest: string)
    requires d.Valid() && above <= d.row
    ensures Replay(d, EraseUp(above) + rest) == Replay(ErasedUp(d, above), rest)
    decreases above
  {
    hide Replay;
    var e := d.WithLine([]);
    if above == 0 {
      ReplayErase(d, rest);
      assert e.lines == ErasedUp(d, 0).lines;
    } else {
      var tail := EraseUp(above - 1) + rest;
      assert EraseUp(above) + rest == ERASE + (UP + tail) by { hide *; }
      ErasedOneMore(d, above);
      hide ErasedUp;
      ReplayErase(d, UP + tail);
      ReplayUp(e, tail);
      ReplayEraseUp(e.(row := e.row - 1), above - 1, rest);
    }
  }

  /** Drawing over blank lines from the first one down. */
  lemma {:induction false} ReplayJoined(d: Display, earlier: seq<string>, texts: seq<string>, blanks: nat)
    requires texts != [] && (forall k :: 0 <= k < |texts| ==> Plain(texts[k]))
    requires blanks > 0 && d.lines == earlier + Blanks(blanks) && d.row == |earlier| && d.column == 0
    ensures Shows(Replay(d, Joined(texts)), earlier, texts)
    decreases |texts|
  {
    hide Replay, WriteText;
    var rest := if |texts| == 1 then "" else "\n" + Joined(texts[1..]);
    assert Joined(texts) == texts[0] + rest by { if |texts| == 1 { assert texts[0] + "" == texts[0]; } }
    ReplayPlain(d, texts[0], rest);
    WriteFromStart(d, "", texts[0]);
    assert "" + texts[0] == texts[0];
    var e := d.WithLine(texts[0]).(column := |texts[0]|);
    OneDrawn(d, earlier, texts[0], blanks);
    if |texts| == 1 {
      ReplayNothing(e);
      assert texts == [texts[0]];
    } else {
      ReplayReturn(e, Joined(texts[1..]));
      var f := WriteChar(e, '\n');
      var left := if blanks == 1 then 1 else blanks - 1;
      assert Blanks(0) + Blanks(1) == Blanks(1);
      assert f.lines == (earlier + [texts[0]]) + Blanks(left);
      ReplayJoined(f, earlier + [texts[0]], texts[1..], left);
      ShowsRest(Replay(f, Joined(texts[1..])), earlier, texts);
    }
  }

  lemma ReplayNothing(d: Display)
    requires d.Valid()
    ensures Replay(d, "") == d
  {
  }

  lemma OneDrawn(d: Display, earlier: seq<string>, text: string, blanks: nat)
    requires blanks > 0 && d.lines == earlier + Blanks(blanks) && d.row == |earlier|
    ensures d.WithLine(text).lines == earlier + [text] + Blanks(blanks - 1)
  {
  }

  lemma ShowsRest(d: Display, earlier: seq<string>, texts: seq<string>)
    requires |texts| > 1 && Shows(d, earlier + [texts[0]], texts[1..])
    ensures Shows(d, earlier, texts)
  {
    assert texts == [texts[0]] + texts[1..];
    assert earlier + [texts[0]] + texts[1..] == earlier + texts;
  }

  /** Redrawing in place replaces the drawing and touches nothing above it. */
  lemma RedrawReplaces(d: Display, earlier: seq<string>, before: seq<string>, texts: seq<string>)
    requires Shows(d, earlier, before) && texts != [] && forall k :: 0 <= k < |texts| ==> Plain(texts[k])
    ensures Shows(Replay(d, Redraw(|before|, texts)), earlier, texts)
  {
    hide Replay, EraseUp, Joined, Plain;
    ReplayReturn(d, EraseUp(|before| - 1) + Joined(texts));
    var e := d.(column := 0);
    ReplayEraseUp(e, |before| - 1, Joined(texts));
    var f := ErasedUp(e, |before| - 1);
    var blanks := |d.lines| - |earlier| - |before|;
    ErasedDrawing(d, earlier, before);
    ReplayJoined(f, earlier, texts, |before| + blanks);
  }

  lemma ErasedDrawing(d: Display, earlier: seq<string>, before: seq<string>)
    requires Shows(d, earlier, before)
    ensures var f := ErasedUp(d.(column := 0), |before| - 1);
            f.lines == earlier + Blanks(|d.lines| - |earlier|) && f.row == |earlier| && f.column == 0
  {
    var e := d.(column := 0);
    assert e.lines[..|earlier|] == earlier;
    assert e.lines[e.row + 1..] == Blanks(|d.lines| - |earlier| - |before|);
  }

  /** A sequence of drawings, each replacing the one before. */
  function Redraws(d: Display, height: nat, drawings: seq<seq<string>>): (r: Display)
    requires d.Valid() && height > 0 && forall k :: 0 <= k < |drawings| ==> drawings[k] != []
    ensures r.Valid()
    decreases |drawings|
  {
    if drawings == [] then d else Redraws(Replay(d, Redraw(height, drawings[0])), |drawings[0]|, drawings[1..])
  }

  /** After any number of redraws of any heights the earlier lines and the last drawing are each there once, above blank lines only. */
  lemma {:induction false} LastDrawingOnce(d: Display, earlier: seq<string>, first: seq<string>, drawings: seq<seq<string>>)
    requires Shows(d, earlier, first)
    requires forall k :: 0 <= k < |drawings| ==> drawings[k] != [] && forall j :: 0 <= j < |drawings[k]| ==> Plain(drawings[k][j])
    ensures Shows(Redraws(d, |first|, drawings), earlier, if drawings == [] then first else drawings[|drawings| - 1])
    decreases |drawings|
  {
    hide Replay, Redraw, Plain;
    if drawings != [] {
      RedrawReplaces(d, earlier, first, drawings[0]);
      LastDrawingOnce(Replay(d, Redraw(|first|, drawings[0])), earlier, drawings[0], drawings[1..]);
    }
  }

  // ----- What is read back -----

  function Stripped(lines: seq<string>): (r: seq<string>)
    ensures |r| == |lines| && forall k :: 0 <= k < |r| ==> r[k] == RightStripped(lines[k])
  {
    seq(|lines|, k requires 0 <= k < |lines| => RightStripped(lines[k]))
  }

  /** Without its trailing empty lines. */
  function Trimmed(lines: seq<string>): (r: seq<string>)
    ensures r <= lines && (r == [] || r[|r| - 1] != []) && forall k :: |r| <= k < |lines| ==> lines[k] == []
  {
    if lines == [] || lines[|lines| - 1] != [] then lines else Trimmed(lines[..|lines| - 1])
  }

  lemma {:induction false} TrimBlanks(lines: seq<string>, blanks: nat)
    ensures Trimmed(Stripped(lines + Blanks(blanks))) == Trimmed(Stripped(lines))
  {
    hide RightStripped, White;
    if blanks == 0 {
      assert lines + Blanks(0) == lines;
    } else {
      var longer := Stripped(lines + Blanks(blanks));
      assert longer[|longer| - 1] == [] by { assert RightStripped([]) == []; }
      assert longer[..|longer| - 1] == Stripped(lines + Blanks(blanks - 1));
      TrimBlanks(lines, blanks - 1);
    }
  }

  /** The lines read back after any redraws are those of the earlier lines and the last drawing alone. */
  lemma RedrawsLeaveOneCopy(d: Display, earlier: seq<string>, first: seq<string>, drawings: seq<seq<string>>)
    requires Shows(d, earlier, first)
    requires forall k :: 0 <= k < |drawings| ==> drawings[k] != [] && forall j :: 0 <= j < |drawings[k]| ==> Plain(drawings[k][j])
    ensures Trimmed(Stripped(Redraws(d, |first|, drawings).lines))
            == Trimmed(Stripped(earlier + if drawings == [] then first else drawings[|drawings| - 1]))
  {
    LastDrawingOnce(d, earlier, first, drawings);
    hide Redraws, Trimmed, Stripped;
    var after := Redraws(d, |first|, drawings);
    var last := if drawings == [] then first else drawings[|drawings| - 1];
    TrimBlanks(earlier + last, |after.lines| - |earlier| - |last|);
  }

  // ----- The screen as it runs -----

  lemma {:induction false} ReplayUpToControl(d: Display, text: string, n: nat)
    requires d.Valid() && n <= |text| && forall p :: 0 <= p < n ==> ControlLength(text[p..]) == 0
    ensures Replay(d, text) == Replay(WriteText(d, text[..n]), text[n..])
    decreases n
  {
    if n > 0 {
      assert ControlLength(text[0..]) == 0 && text[0..] == text;
      forall p | 0 <= p < n - 1 ensures ControlLength(text[1..][p..]) == 0 {
        assert text[1..][p..] == text[p + 1..];
      }
      ReplayUpToControl(WriteChar(d, text[0]), text[1..], n - 1);
      assert text[1..][..n - 1] == text[..n][1..] && text[1..][n - 1..] == text[n..];
    } else {
      assert text[..0] == [] && text[0..] == text;
    }
  }

  lemma ReplayControl(d: Display, text: string)
    requires d.Valid() && ControlLength(text) > 0
    ensures Replay(d, text) == Replay(Control(d, text[2..ControlLength(text) - 1], text[ControlLength(text) - 1]), text[ControlLength(text)..])
  {
  }

  lemma StretchOf(d: Display, text: string, position: nat, start: nat)
    requires d.Valid() && position <= start <= |text|
    requires forall p :: position <= p < start ==> ControlLength(text[p..]) == 0
    ensures Replay(d, text[position..]) == Replay(WriteText(d, text[position..start]), text[start..])
  {
    hide ControlLength, WriteText, Replay;
    var rest := text[position..];
    forall p | 0 <= p < start - position ensures ControlLength(rest[p..]) == 0 {
      assert rest[p..] == text[position + p..];
    }
    ReplayUpToControl(d, rest, start - position);
    assert rest[..start - position] == text[position..start] && rest[start - position..] == text[start..];
  }

  lemma SuffixOfSuffix(text: string, start: nat, n: nat)
    requires start + n <= |text|
    ensures text[start..][n..] == text[start + n..]
  {
  }

  class Screen {
    var lines: seq<string>
    var row: nat
    var column: nat

    ghost predicate Valid()
      reads this
    {
      row < |lines|
    }

    ghost function Shown(): (d: Display)
      reads this
    {
      Display(lines, row, column)
    }

    constructor ()
      ensures Valid() && Shown() == Display([[]], 0, 0)
    {
      lines, row, column := [[]], 0, 0;
    }

    /** Grows the screen so the cursor row exists. */
    method EnsureRow()
      modifies this`lines
      ensures lines == Ensured(old(lines), row)
    {
      while |lines| <= row
        invariant |old(lines)| <= |lines| && (|lines| <= row + 1 || lines == old(lines))
        invariant lines == old(lines) + Blanks(|lines| - |old(lines)|)
        decreases row - |lines|
      {
        lines := lines + [[]];
      }
    }

    method Write(text: string)
      requires Valid()
      modifies this
      ensures Valid() && Shown() == WriteText(old(Shown()), text)
    {
      var i := 0;
      while i < |text|
        invariant 0 <= i <= |text| && Valid()
        invariant WriteText(Shown(), text[i..]) == WriteText(old(Shown()), text)
      {
        ghost var before := Shown();
        PutChar(text[i]);
        assert text[i..][1..] == text[i + 1..] && text[i..][0] == text[i];
        i := i + 1;
      }
      assert text[i..] == [];
    }

    method PutChar(character: char)
      requires Valid()
      modifies this
      ensures Valid() && Shown() == WriteChar(old(Shown()), character)
    {
      if character == '\n' {
        row := row + 1;
        column := 0;
        EnsureRow();
      } else if character == '\r' {
        column := 0;
      } else {
        var line := lines[row];
        ghost var start := line;
        while |line| <= column
          invariant |start| <= |line| && (|line| <= column + 1 || line == start)
          invariant line == start + Spaces(|line| - |start|)
          decreases column - |line|
        {
          line := line + [' '];
        }
        line := line[column := character];
        assert line == Placed(start, column, character);
        lines := lines[row := line];
        column := column + 1;
      }
    }

    method Erase(parameters: string)
      requires Valid()
      modifies this`lines
      ensures Valid() && Shown() == EraseLine(old(Shown()), parameters)
    {
      var line := lines[row];
      if parameters == "2" {
        line := [];
      } else if parameters == "1" {
        ghost var start := line;
        var index := 0;
        while index < column + 1 && index < |line|
          invariant 0 <= index <= |line| == |start| && index <= column + 1
          invariant line == Spaces(index) + start[index..]
        {
          line := line[index := ' '];
          index := index + 1;
        }
      } else if column < |line| {
        line := line[..column];
      }
      lines := lines[row := line];
    }

    method Apply(parameters: string, final: char)
      requires Valid()
      modifies this
      ensures Valid() && Shown() == Control(old(Shown()), parameters, final)
    {
      var count := Count(parameters);
      if final == 'K' {
        Erase(parameters);
      } else if final == 'A' {
        row := if row < count then 0 else row - count;
      } else if final == 'B' {
        row := row + count;
        EnsureRow();
      } else if final == 'G' {
        column := if count == 0 then 0 else count - 1;
      } else if final == 'J' && parameters in {"", "0"} {
        lines := lines[..row + 1];
        Erase("0");
      }
    }

    /** The leftmost control sequence at or after a position, or the end of the text. */
    static method Search(text: string, position: nat) returns (start: nat)
      requires position <= |text|
      ensures position <= start <= |text| && (start < |text| ==> ControlLength(text[start..]) > 0)
      ensures forall p :: position <= p < start ==> ControlLength(text[p..]) == 0
    {
      start := position;
      while start < |text| && ControlLength(text[start..]) == 0
        invariant position <= start <= |text|
        invariant forall p :: position <= p < start ==> ControlLength(text[p..]) == 0
      {
        start := start + 1;
      }
    }

    /** The next stretch of plain text and the control sequence behind it, or the rest of the text. */
    method FeedNext(text: string, position: nat) returns (next: nat)
      requires Valid() && position < |text|
      modifies this
      ensures Valid() && position < next <= |text|
      ensures Replay(Shown(), text[next..]) == Replay(old(Shown()), text[position..])
    {
      hide Control, WriteText, ControlLength, Replay, Ensured;
      var start := Search(text, position);
      StretchOf(Shown(), text, position, start);
      Write(text[position..start]);
      if start == |text| { return |text|; }
      var rest := text[start..];
      var n := ControlLength(rest);
      ReplayControl(Shown(), rest);
      SuffixOfSuffix(text, start, n);
      Apply(rest[2..n - 1], rest[n - 1]);
      next := start + n;
    }

    /** Writes each stretch of text whole and applies each control sequence, which is what replaying it piece by piece shows. */
    method Feed(text: string)
      requires Valid()
      modifies this
      ensures Valid() && Shown() == Replay(old(Shown()), text)
    {
      hide Replay;
      var position := 0;
      assert text[0..] == text;
      while position < |text|
        invariant 0 <= position <= |text| && Valid()
        invariant Replay(Shown(), text[position..]) == Replay(old(Shown()), text)
      {
        position := FeedNext(text, position);
      }
      assert text[position..] == "";
      ReplayNothing(Shown());
    }

    method Lines() returns (rendered: seq<string>)
      ensures rendered == Trimmed(Stripped(lines))
    {
      rendered := Stripped(lines);
      while rendered != [] && rendered[|rendered| - 1] == []
        invariant Trimmed(rendered) == Trimmed(Stripped(lines))
        decreases |rendered|
      {
        rendered := rendered[..|rendered| - 1];
      }
    }
  }
}
