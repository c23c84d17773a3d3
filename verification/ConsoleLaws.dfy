// Where console_write puts lines of text, cell by cell, and what the control characters do.

module ConsoleLaws {
  import opened Console

  // ---- Lines ----

  predicate Printable(s: seq<Char>) {
    forall k :: 0 <= k < |s| ==> s[k] >= 0x20
  }

  /** The lines with a newline between any two. */
  function Text(lines: seq<seq<Char>>): seq<Char> {
    if lines == [] then [] else if |lines| == 1 then lines[0] else Text(lines[..|lines| - 1]) + [0x0A] + lines[|lines| - 1]
  }

  /** The row where line n starts: each line takes the rows its 79 columns fill, and one more. */
  function StartRow(lines: seq<seq<Char>>, n: nat): nat
    requires n <= |lines|
  {
    if n == 0 then 0 else StartRow(lines, n - 1) + Rows(|lines[n - 1]|) + 1
  }

  /** How many full rows of 79 columns n characters take, and in which column the next one stands. */
  function Rows(n: nat): nat {
    n / 79
  }

  function Column(n: nat): (c: nat)
    ensures c < 79
  {
    n % 79
  }

  /** Cell number of the k-th character of a line that starts in this row. */
  function Place(row: nat, k: nat): nat {
    (row + Rows(k)) * 80 + Column(k)
  }

  /** A character in light grey on black. */
  function Grey(c: Char): bv16 {
    if c >= 0 then 0x0700 | (c as bv16) else 0
  }

  lemma GreyIs(c: Char)
    requires c >= 0
    ensures Glyph(c) == Grey(c)
  {
    var b := c as bv16;
    assert ((7 as bv16 | (0 as bv16 << 4)) & 0xFF) << 8 == 0x0700;
    assert b | 0x0700 == 0x0700 | b;
  }

  /** A cell nothing was written to: a light grey blank where console_init cleared, below it what follows the screen. */
  lemma BackgroundIs(past: seq<bv16>, p: nat)
    requires |past| == COLUMNS
    ensures Background(past, p) == if p < 25 * 80 then 0x0720 else past[p % 80]
  {
  }

  lemma {:induction false} AdvanceBoth(log: Log, s: seq<Char>, t: seq<Char>)
    ensures AdvanceAll(log, s + t) == AdvanceAll(AdvanceAll(log, s), t)
    decreases |s|
  {
    if s == [] {
      assert s + t == t;
    } else {
      hide Advance;
      AdvanceBoth(Advance(log, s[0]), s[1..], t);
      assert (s + t)[1..] == s[1..] + t;
    }
  }

  /** The cells after a line was written that starts in this row: its characters in their places, all else as before. */
  ghost predicate LineAt(writes: seq<(int, bv16)>, was: seq<(int, bv16)>, past: seq<bv16>, row: nat, s: seq<Char>) {
    && |past| == COLUMNS
    && (forall k :: 0 <= k < |s| ==> CellAt(writes, past, Place(row, k)) == Grey(s[k]))
    && (forall p: nat :: (forall k :: 0 <= k < |s| ==> Place(row, k) != p) ==> CellAt(writes, past, p) == CellAt(was, past, p))
  }

  /** The line is written, and the cursor stands behind it. */
  ghost predicate LineDone(after: Log, log: Log, past: seq<bv16>, s: seq<Char>) {
    && after.row == log.row + Rows(|s|) && after.x == Column(|s|)
    && WrittenBefore(after.writes, after.row * 80 + after.x)
    && LineAt(after.writes, log.writes, past, log.row, s)
  }

  /** A line of text, from the start of a row that is still empty: its characters go to their places, the cursor
      behind them, and nothing else changes. */
  lemma {:induction false} LineLaid(log: Log, s: seq<Char>, past: seq<bv16>)
    requires log.x == 0 && WrittenBefore(log.writes, log.row * 80) && |past| == COLUMNS && Printable(s)
    ensures LineDone(AdvanceAll(log, s), log, past, s)
    decreases |s|
  {
    hide *;
    if s == [] {
      NoLine(log, past);
    } else {
      var n := |s| - 1;
      assert s == s[..n] + [s[n]];
      FrontPrintable(s);
      LineLaid(log, s[..n], past);
      AdvanceLast(log, s[..n], s[n]);
      LineStep(log, AdvanceAll(log, s[..n]), s, past);
    }
  }

  lemma LineStep(log: Log, before: Log, s: seq<Char>, past: seq<bv16>)
    requires |past| == COLUMNS && Printable(s) && s != [] && LineDone(before, log, past, s[..|s| - 1])
    ensures LineDone(Advance(before, s[|s| - 1]), log, past, s)
  {
    hide Advance, LineAt, WrittenBefore, Rows, Column, Printable, CellAt;
    Written(before, s, past);
    OneMore(log.writes, before.writes, Advance(before, s[|s| - 1]).writes, log.row, s, past);
  }

  lemma NoLine(log: Log, past: seq<bv16>)
    requires log.x == 0 && WrittenBefore(log.writes, log.row * 80) && |past| == COLUMNS
    ensures LineDone(AdvanceAll(log, []), log, past, [])
  {
    hide CellAt;
  }

  lemma FrontPrintable(s: seq<Char>)
    requires Printable(s) && s != []
    ensures Printable(s[..|s| - 1])
  {
  }

  lemma OneMore(was: seq<(int, bv16)>, before: seq<(int, bv16)>, after: seq<(int, bv16)>, row: nat, s: seq<Char>, past: seq<bv16>)
    requires |past| == COLUMNS && s != [] && LineAt(before, was, past, row, s[..|s| - 1])
    requires forall p: nat :: CellAt(after, past, p) == if p == Place(row, |s| - 1) then Grey(s[|s| - 1]) else CellAt(before, past, p)
    ensures LineAt(after, was, past, row, s)
  {
    hide CellAt, Grey, Place;
    var n := |s| - 1;
    forall k | 0 <= k < |s|
      ensures CellAt(after, past, Place(row, k)) == Grey(s[k])
    {
      if k < n {
        Places(row, k, n);
        assert s[..n][k] == s[k];
      }
    }
    forall p: nat | forall k :: 0 <= k < |s| ==> Place(row, k) != p
      ensures CellAt(after, past, p) == CellAt(was, past, p)
    {
      assert Place(row, n) != p;
    }
  }

  lemma Written(before: Log, s: seq<Char>, past: seq<bv16>)
    requires |past| == COLUMNS && Printable(s) && s != [] && before.x == Column(|s| - 1) && before.row >= Rows(|s| - 1)
    requires WrittenBefore(before.writes, before.row * 80 + before.x)
    ensures var after, row := Advance(before, s[|s| - 1]), before.row - Rows(|s| - 1);
      && after.row == row + Rows(|s|) && after.x == Column(|s|)
      && WrittenBefore(after.writes, after.row * 80 + after.x)
      && forall p: nat :: CellAt(after.writes, past, p)
           == if p == Place(row, |s| - 1) then Grey(s[|s| - 1]) else CellAt(before.writes, past, p)
  {
    hide CellAt, Grey, Glyph;
    var c := s[|s| - 1];
    GreyIs(c);
    NextColumn(|s| - 1);
    hide Rows, Column;
    forall p: nat
      ensures CellAt(before.writes + [(before.Position(), Glyph(c))], past, p)
        == if p == before.row * 80 + before.x then Grey(c) else CellAt(before.writes, past, p)
    {
      CellAppend(before.writes, (before.Position(), Glyph(c)), past, p);
    }
  }

  lemma NextColumn(n: nat)
    ensures Rows(n + 1) == Rows(n) + (if Column(n) == 78 then 1 else 0)
    ensures Column(n + 1) == if Column(n) == 78 then 0 else Column(n) + 1
  {
  }

  lemma Places(row: nat, j: nat, k: nat)
    requires j < k
    ensures Place(row, j) < Place(row, k)
  {
    var a, b, c, d := Rows(j), Column(j), Rows(k), Column(k);
    assert j == a * 79 + b && k == c * 79 + d;
    assert a <= c;
  }

  /** What stands where, and the cursor behind the last line. */
  ghost predicate Laid(log: Log, lines: seq<seq<Char>>, past: seq<bv16>) {
    lines != [] && |past| == COLUMNS &&
    var last := |lines| - 1;
    && log.row == StartRow(lines, last) + Rows(|lines[last]|) && log.x == Column(|lines[last]|)
    && (forall n, k :: 0 <= n < |lines| && 0 <= k < |lines[n]| && Printable(lines[n]) ==>
          CellAt(log.writes, past, Place(StartRow(lines, n), k)) == Grey(lines[n][k]))
    && (forall p: nat :: (forall n, k :: 0 <= n < |lines| && 0 <= k < |lines[n]| ==> Place(StartRow(lines, n), k) != p) ==>
          CellAt(log.writes, past, p) == Background(past, p))
  }

  /** The same, and nothing is written from the cursor on. */
  ghost predicate LaidBefore(log: Log, lines: seq<seq<Char>>, past: seq<bv16>) {
    Laid(log, lines, past) && WrittenBefore(log.writes, log.row * 80 + log.x)
  }

  /** Main result: after any lines of printable text joined by newlines, the k-th character of each line stands in
      column k % 79, k / 79 rows below the row where that line starts; each line starts in column 0 of the row
      behind the one before; every other cell is as it was; and the cursor stands behind the last character. */
  lemma {:induction false} LinesLaid(lines: seq<seq<Char>>, past: seq<bv16>)
    requires lines != [] && |past| == COLUMNS && forall n :: 0 <= n < |lines| ==> Printable(lines[n])
    ensures LaidBefore(AdvanceAll(EMPTY, Text(lines)), lines, past)
    decreases |lines|
  {
    hide *;
    if |lines| == 1 {
      TextIs(lines);
      OneLine(lines, past);
    } else {
      LinesLaid(lines[..|lines| - 1], past);
      TextBehind(lines);
      LineAdded(lines, past, AdvanceAll(EMPTY, Text(lines[..|lines| - 1])));
    }
  }

  lemma OneLine(lines: seq<seq<Char>>, past: seq<bv16>)
    requires |lines| == 1 && |past| == COLUMNS && Printable(lines[0])
    ensures LaidBefore(AdvanceAll(EMPTY, lines[0]), lines, past)
  {
    NothingYet();
    hide AdvanceAll, Laid, LineAt, WrittenBefore, Rows, Column, Printable;
    LineLaid(EMPTY, lines[0], past);
    FirstLine(AdvanceAll(EMPTY, lines[0]), lines, past);
  }

  lemma TextIs(lines: seq<seq<Char>>)
    requires lines != []
    ensures Text(lines) == if |lines| == 1 then lines[0] else Text(lines[..|lines| - 1]) + [0x0A] + lines[|lines| - 1]
  {
  }

  lemma NothingYet()
    ensures EMPTY.row == 0 && EMPTY.x == 0 && WrittenBefore(EMPTY.writes, EMPTY.row * 80)
  {
  }

  lemma OneAdvance(log: Log, c: Char)
    ensures AdvanceAll(log, [c]) == Advance(log, c)
  {
    assert [c][1..] == [];
  }

  lemma LineAdded(lines: seq<seq<Char>>, past: seq<bv16>, log: Log)
    requires |lines| >= 2 && |past| == COLUMNS && Printable(lines[|lines| - 1]) && LaidBefore(log, lines[..|lines| - 1], past)
    ensures LaidBefore(AdvanceAll(Advance(log, 0x0A), lines[|lines| - 1]), lines, past)
  {
    var s := lines[|lines| - 1];
    InRow(log, lines[..|lines| - 1], past);
    NewLine(log);
    hide Laid, LineAt, Printable, AdvanceAll, Advance, Rows, Column, StartRow, WrittenBefore;
    var next := Advance(log, 0x0A);
    LineLaid(next, s, past);
    NextLine(log, AdvanceAll(next, s), lines, past);
  }

  /** The last line is printed behind a newline. */
  lemma TextBehind(lines: seq<seq<Char>>)
    requires |lines| >= 2
    ensures AdvanceAll(EMPTY, Text(lines))
      == AdvanceAll(Advance(AdvanceAll(EMPTY, Text(lines[..|lines| - 1])), 0x0A), lines[|lines| - 1])
  {
    hide *;
    var front := Text(lines[..|lines| - 1]);
    TextIs(lines);
    OneAdvance(AdvanceAll(EMPTY, front), 0x0A);
    AdvanceBoth(EMPTY, front, [0x0A]);
    AdvanceBoth(EMPTY, front + [0x0A], lines[|lines| - 1]);
  }

  lemma InRow(log: Log, lines: seq<seq<Char>>, past: seq<bv16>)
    requires lines != [] && |past| == COLUMNS && LaidBefore(log, lines, past)
    ensures 0 <= log.x < 79 && WrittenBefore(log.writes, log.row * 80 + log.x) && Laid(log, lines, past)
  {
  }

  lemma LaidThere(log: Log, lines: seq<seq<Char>>, past: seq<bv16>)
    requires lines != [] && |past| == COLUMNS && LaidBefore(log, lines, past)
    ensures Laid(log, lines, past)
  {
  }

  lemma Cursor(log: Log, lines: seq<seq<Char>>, past: seq<bv16>)
    requires lines != [] && |past| == COLUMNS && Laid(log, lines, past)
    ensures log.row == StartRow(lines, |lines| - 1) + Rows(|lines[|lines| - 1]|) && log.x == Column(|lines[|lines| - 1]|)
  {
  }

  lemma FirstLine(after: Log, lines: seq<seq<Char>>, past: seq<bv16>)
    requires |lines| == 1 && LineDone(after, EMPTY, past, lines[0])
    ensures Laid(after, lines, past)
  {
    hide Place, Grey, Printable;
    assert StartRow(lines, 0) == 0;
    forall p: nat | forall n, k :: 0 <= n < |lines| && 0 <= k < |lines[n]| ==> Place(StartRow(lines, n), k) != p
      ensures CellAt(after.writes, past, p) == Background(past, p)
    {
      assert forall k :: 0 <= k < |lines[0]| ==> Place(StartRow(lines, 0), k) != p;
    }
  }

  /** A newline goes to column 0 of the next row and writes nothing. */
  lemma NewLine(log: Log)
    ensures Advance(log, 0x0A) == Log(log.writes, log.row + 1, 0)
    ensures WrittenBefore(log.writes, log.row * 80 + log.x) && log.x < 79 ==> WrittenBefore(log.writes, (log.row + 1) * 80)
  {
  }

  lemma {:induction false} StartRowOf(front: seq<seq<Char>>, lines: seq<seq<Char>>, n: nat)
    requires n <= |front| < |lines| && front == lines[..|front|]
    ensures StartRow(front, n) == StartRow(lines, n)
  {
    if n > 0 {
      StartRowOf(front, lines, n - 1);
    }
  }

  lemma {:induction false} RowsApart(lines: seq<seq<Char>>, n: nat, m: nat, k: nat)
    requires n < m <= |lines| && k < |lines[n]|
    ensures Place(StartRow(lines, n), k) < StartRow(lines, m) * 80
    decreases m
  {
    if n < m - 1 {
      RowsApart(lines, n, m - 1, k);
    } else {
      assert Rows(k) <= Rows(|lines[n]|);
    }
  }

  lemma NextLine(log: Log, after: Log, lines: seq<seq<Char>>, past: seq<bv16>)
    requires |lines| >= 2 && |past| == COLUMNS && Laid(log, lines[..|lines| - 1], past)
    requires LineDone(after, Log(log.writes, log.row + 1, 0), past, lines[|lines| - 1])
    ensures Laid(after, lines, past)
  {
    hide CellAt, Grey, Place, Printable, StartRow, Background;
    hide Rows, Column;
    var m := |lines| - 1;
    var front := lines[..m];
    NextRow(lines, m);
    StartRowOf(front, lines, m - 1);
    assert log.row + 1 == StartRow(lines, m);
    forall n, k | 0 <= n < |lines| && 0 <= k < |lines[n]| && Printable(lines[n])
      ensures CellAt(after.writes, past, Place(StartRow(lines, n), k)) == Grey(lines[n][k])
    {
      if n < m {
        StartRowOf(front, lines, n);
        RowsApart(lines, n, m, k);
        RowBegins(StartRow(lines, m));
        assert front[n] == lines[n];
      }
    }
    forall p: nat | forall n, k :: 0 <= n < |lines| && 0 <= k < |lines[n]| ==> Place(StartRow(lines, n), k) != p
      ensures CellAt(after.writes, past, p) == Background(past, p)
    {
      forall n, k | 0 <= n < |front| && 0 <= k < |front[n]|
        ensures Place(StartRow(front, n), k) != p
      {
        StartRowOf(front, lines, n);
        assert front[n] == lines[n];
      }
      assert forall k :: 0 <= k < |lines[m]| ==> Place(StartRow(lines, m), k) != p;
    }
  }

  lemma NextRow(lines: seq<seq<Char>>, n: nat)
    requires 0 < n <= |lines|
    ensures StartRow(lines, n) == StartRow(lines, n - 1) + Rows(|lines[n - 1]|) + 1
  {
  }

  lemma RowBegins(row: nat)
    ensures forall k: nat :: Place(row, k) >= row * 80
  {
  }

  // ---- Control characters ----

  /** Main result: from a column on the screen, a tab goes to the next multiple of 8, and from column 72 on to the
      next row; a backspace goes one column back; a newline to the next row; none of them writes a cell, nor does
      any other control character, which changes nothing. Any other character is written where the cursor stands,
      which goes one column on, or to the next row from column 78. */
  lemma ControlCharacters(log: Log, c: Char)
    requires 0 <= log.x < 79
    ensures c == 0x0A ==> Advance(log, c) == Log(log.writes, log.row + 1, 0)
    ensures c == 0x08 ==> Advance(log, c) == Log(log.writes, log.row, log.x - 1)
    ensures c == 0x09 ==> var t := Advance(log, c);
      && t.writes == log.writes
      && (if log.x >= 72 then t.row == log.row + 1 && t.x == 0
          else t.row == log.row && t.x % 8 == 0 && log.x < t.x <= log.x + 8)
    ensures c < 0x20 && c != 0x0A && c != 0x08 && c != 0x09 ==> Advance(log, c) == log
    ensures c >= 0x20 ==>
      Advance(log, c) == Log(log.writes + [(log.row * 80 + log.x, Grey(c))], if log.x == 78 then log.row + 1 else log.row,
                             if log.x == 78 then 0 else log.x + 1)
  {
    hide Grey, Glyph;
    if c >= 0x20 {
      GreyIs(c);
    }
  }

  // ---- The screen ----

  /** What the screen memory holds: the last 25 rows of the page, the cursor in the second last of them at most. */
  lemma ShownCell(screen: Screen, log: Log, past: seq<bv16>, row: nat, column: nat)
    requires screen.Shows(log, past) && column < 80
    ensures var top := if log.row > 23 then log.row - 23 else 0;
      && screen.y == log.row - top && screen.x == log.x
      && (top <= row < top + 25 ==>
            0 <= (row - top) * 80 + column < screen.fb.Length
            && screen.fb[(row - top) * 80 + column] == CellAt(log.writes, past, row * 80 + column))
  {
    hide CellAt, WrittenBefore;
    var top := Scrolled(log.row);
    if top <= row < top + 25 {
      var i := (row - top) * 80 + column;
      assert screen.fb[..][i] == CellAt(log.writes, past, top * COLUMNS + i);
    }
  }

  /** console_init and console_write of such lines: as far as they have not left the screen, its memory shows each
      character in its place. */
  method InitAndWrite(screen: Screen, lines: seq<seq<Char>>)
    requires screen.fb.Length >= SCREEN + COLUMNS && lines != [] && forall n :: 0 <= n < |lines| ==> Printable(lines[n])
    modifies screen, screen.fb
    ensures var last := |lines| - 1;
      var row := StartRow(lines, last) + Rows(|lines[last]|);
      var top := if row > 23 then row - 23 else 0;
      && screen.y == row - top && screen.x == Column(|lines[last]|)
      && OnScreen(screen.fb[..], lines, top)
  {
    ghost var past := screen.fb[SCREEN..SCREEN + COLUMNS];
    ghost var log := AdvanceAll(EMPTY, Text(lines));
    screen.Init();
    hide *;
    LinesFit(lines);
    screen.Write(Text(lines), EMPTY, past);
    LinesLaid(lines, past);
    LaidThere(log, lines, past);
    Cursor(log, lines, past);
    ShownCell(screen, log, past, 0, 0);
    ShownLines(screen, log, lines, past);
  }

  /** The characters in the rows from `top` on stand in the screen memory. */
  ghost predicate OnScreen(fb: seq<bv16>, lines: seq<seq<Char>>, top: nat) {
    forall n: nat, k: nat :: CharShown(fb, lines, top, n, k)
  }

  predicate CharShown(fb: seq<bv16>, lines: seq<seq<Char>>, top: nat, n: nat, k: nat) {
    n < |lines| && k < |lines[n]| && top <= StartRow(lines, n) + Rows(k) < top + 25 ==>
      var i := (StartRow(lines, n) + Rows(k) - top) * 80 + Column(k);
      0 <= i < |fb| && fb[i] == Grey(lines[n][k])
  }

  lemma ShownLines(screen: Screen, log: Log, lines: seq<seq<Char>>, past: seq<bv16>)
    requires screen.Shows(log, past) && Laid(log, lines, past) && forall n :: 0 <= n < |lines| ==> Printable(lines[n])
    ensures OnScreen(screen.fb[..], lines, if log.row > 23 then log.row - 23 else 0)
  {
    hide Laid, CharShown, Printable;
    var top := if log.row > 23 then log.row - 23 else 0;
    forall n: nat, k: nat
      ensures CharShown(screen.fb[..], lines, top, n, k)
    {
      ShownChar(screen, log, lines, past, n, k);
    }
  }

  lemma ShownChar(screen: Screen, log: Log, lines: seq<seq<Char>>, past: seq<bv16>, n: nat, k: nat)
    requires screen.Shows(log, past) && Laid(log, lines, past)
    requires n < |lines| && k < |lines[n]| ==> Printable(lines[n])
    ensures CharShown(screen.fb[..], lines, if log.row > 23 then log.row - 23 else 0, n, k)
  {
    if n < |lines| && k < |lines[n]| {
      hide CellAt, Grey, StartRow, Printable, Background, Rows;
      assert CellAt(log.writes, past, Place(StartRow(lines, n), k)) == Grey(lines[n][k]);
      hide Laid;
      ShownCell(screen, log, past, StartRow(lines, n) + Rows(k), Column(k));
      hide Column;
    }
  }

  /** Lines contain no backspace, so that every character of them is written on the screen. */
  lemma LinesFit(lines: seq<seq<Char>>)
    requires lines != [] && forall n :: 0 <= n < |lines| ==> Printable(lines[n])
    ensures AllFit(EMPTY, Text(lines))
  {
    TextHas(lines);
    NoBack(EMPTY, Text(lines));
    assert InMargins(EMPTY);
    hide *;
    MarginsKept(EMPTY, Text(lines));
  }

  lemma {:induction false} TextHas(lines: seq<seq<Char>>)
    requires lines != [] && forall n :: 0 <= n < |lines| ==> Printable(lines[n])
    ensures 0x08 !in Text(lines)
    decreases |lines|
  {
    if |lines| > 1 {
      TextHas(lines[..|lines| - 1]);
    }
    assert Printable(lines[|lines| - 1]);
  }

  lemma {:induction false} NoBack(log: Log, s: seq<Char>)
    requires 0x08 !in s
    ensures NoUnderflow(log, s)
    decreases |s|
  {
    if s != [] {
      NoBack(Advance(log, s[0]), s[1..]);
    }
  }
}
