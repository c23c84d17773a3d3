// drivers/console.c: the text console, 25 rows of 80 cells over an unbounded log.

module Console {
  const ROWS := 25
  const COLUMNS := 80
  const SCREEN := ROWS * COLUMNS

  /** The C char type. */
  type Char = c: int | -0x80 <= c < 0x80

  const LIGHT_GREY: bv16 := 7
  const BLACK: bv16 := 0

  // ---- Cells ----

  /** console_setcolor */
  function SetColor(cnt: bv16, fg: bv16, bg: bv16): bv16 {
    cnt | (((fg | (bg << 4)) & 0xFF) << 8)
  }

  /** The character and the two colours can be read back from a cell. */
  lemma ColourKept(cnt: bv16, fg: bv16, bg: bv16)
    requires cnt < 0x100 && fg < 16 && bg < 16
    ensures var cell := SetColor(cnt, fg, bg);
      cell & 0xFF == cnt && (cell >> 8) & 0xF == fg && cell >> 12 == bg
  {
  }

  function Glyph(c: Char): bv16
    requires c >= 0
  {
    SetColor(c as bv16, LIGHT_GREY, BLACK)
  }

  const BLANK := Glyph(0x20)

  // ---- The log ----

  /** Everything ever printed: what was written at which cell of an unbounded page, and the cursor on it. */
  datatype Log = Log(writes: seq<(int, bv16)>, row: nat, x: int) {
    function Position(): int {
      row * COLUMNS + x
    }
  }

  const EMPTY := Log([], 0, 0)

  /** The page before anything is printed: blank where console_init clears, then rows like the memory past the screen. */
  function Background(past: seq<bv16>, p: nat): bv16
    requires |past| == COLUMNS
  {
    if p < SCREEN then BLANK else past[p % COLUMNS]
  }

  /** The cell at p: the last write there. */
  function CellAt(writes: seq<(int, bv16)>, past: seq<bv16>, p: nat): bv16
    requires |past| == COLUMNS
  {
    if writes == [] then Background(past, p)
    else if writes[|writes| - 1].0 == p then writes[|writes| - 1].1
    else CellAt(writes[..|writes| - 1], past, p)
  }

  predicate Prints(c: Char) {
    c >= 0x20
  }

  /** The next tab stop, and the wrap at column 79. */
  function TabStop(x: int): int {
    (x + 8) / 8 * 8
  }

  /** `& ~(8 - 1)` on a 32-bit int, negative or not, rounds down to a multiple of 8. */
  lemma TabMask(x: bv32)
    ensures (x & !7) == x - x % 8
  {
  }

  function Wrapped(log: Log): Log {
    if log.x >= COLUMNS - 1 then log.(row := log.row + 1, x := 0) else log
  }

  function Advance(log: Log, c: Char): Log {
    Wrapped(
      if c == 0x0A then log.(row := log.row + 1, x := 0)
      else if c == 0x08 then log.(x := log.x - 1)
      else if c == 0x09 then log.(x := TabStop(log.x))
      else if Prints(c) then Log(log.writes + [(log.Position(), Glyph(c))], log.row, log.x + 1)
      else log)
  }

  function AdvanceAll(log: Log, s: seq<Char>): Log
    decreases |s|
  {
    if s == [] then log else AdvanceAll(Advance(log, s[0]), s[1..])
  }

  /** Rows that have left the screen. */
  function Scrolled(row: nat): nat {
    if row > ROWS - 2 then row - (ROWS - 2) else 0
  }

  /** Printing c stays behind the start of the screen. */
  predicate Fits(log: Log, c: Char) {
    Prints(c) ==> log.Position() >= Scrolled(log.row) * COLUMNS
  }

  predicate AllFit(log: Log, s: seq<Char>)
    decreases |s|
  {
    s == [] || (Fits(log, s[0]) && AllFit(Advance(log, s[0]), s[1..]))
  }

  // ---- The screen ----

  /** The first n cells hold what stood one row further down. */
  ghost predicate Shifted(was: seq<bv16>, now: seq<bv16>, n: int) {
    && |was| == |now| && 0 <= n <= |was| - COLUMNS
    && (forall i :: 0 <= i < n ==> now[i] == was[i + COLUMNS])
    && forall i :: n <= i < |was| ==> now[i] == was[i]
  }

  lemma NoneShifted(was: seq<bv16>)
    requires |was| >= COLUMNS
    ensures Shifted(was, was, 0)
  {
  }

  lemma ShiftOne(was: seq<bv16>, now: seq<bv16>, n: int)
    requires Shifted(was, now, n) && n + COLUMNS < |was|
    ensures Shifted(was, now[n := now[n + COLUMNS]], n + 1)
  {
  }

  /** The screen memory shows the page from row `top` on, and past stands in the row behind it. */
  ghost predicate Window(fb: seq<bv16>, writes: seq<(int, bv16)>, past: seq<bv16>, top: nat) {
    && |fb| >= SCREEN + COLUMNS && |past| == COLUMNS
    && (forall c :: 0 <= c < COLUMNS ==> fb[SCREEN + c] == past[c])
    && forall i: nat :: i < SCREEN ==> fb[i] == CellAt(writes, past, top * COLUMNS + i)
  }

  predicate WrittenBefore(writes: seq<(int, bv16)>, p: int) {
    forall k :: 0 <= k < |writes| ==> writes[k].0 < p
  }

  lemma {:induction false} NeverWritten(writes: seq<(int, bv16)>, past: seq<bv16>, p: nat)
    requires |past| == COLUMNS && WrittenBefore(writes, p)
    ensures CellAt(writes, past, p) == Background(past, p)
  {
    if writes != [] {
      NeverWritten(writes[..|writes| - 1], past, p);
    }
  }

  lemma CellAppend(writes: seq<(int, bv16)>, w: (int, bv16), past: seq<bv16>, p: nat)
    requires |past| == COLUMNS
    ensures CellAt(writes + [w], past, p) == if w.0 == p then w.1 else CellAt(writes, past, p)
  {
    assert (writes + [w])[..|writes|] == writes;
  }

  /** A write inside the window is a write on the page. */
  lemma WindowWrite(fb: seq<bv16>, writes: seq<(int, bv16)>, past: seq<bv16>, top: nat, i: nat, cell: bv16)
    requires Window(fb, writes, past, top) && i < SCREEN
    ensures Window(fb[i := cell], writes + [(top * COLUMNS + i, cell)], past, top)
  {
    var now := fb[i := cell];
    forall j: nat | j < SCREEN
      ensures now[j] == CellAt(writes + [(top * COLUMNS + i, cell)], past, top * COLUMNS + j)
    {
      CellAppend(writes, (top * COLUMNS + i, cell), past, top * COLUMNS + j);
    }
  }

  /** Scrolling moves the window down by one row; the row that comes in was never written. */
  lemma WindowScroll(fb: seq<bv16>, after: seq<bv16>, writes: seq<(int, bv16)>, past: seq<bv16>, top: nat)
    requires Window(fb, writes, past, top) && Shifted(fb, after, SCREEN)
    requires WrittenBefore(writes, (top + ROWS) * COLUMNS)
    ensures Window(after, writes, past, top + 1)
  {
    forall i: nat | i < SCREEN ensures after[i] == CellAt(writes, past, (top + 1) * COLUMNS + i) {
      if i < SCREEN - COLUMNS {
        assert fb[i + COLUMNS] == CellAt(writes, past, top * COLUMNS + (i + COLUMNS));
      } else {
        var p := (top + 1) * COLUMNS + i;
        var c := i - (SCREEN - COLUMNS);
        assert p == (top + ROWS) * COLUMNS + c;
        assert p % COLUMNS == c;
        NeverWritten(writes, past, p);
        assert fb[SCREEN + c] == past[c];
      }
    }
  }

  class Screen {
    const fb: array<bv16>
    var x: int
    var y: int

    /** The screen is the window on the log that starts at the rows scrolled off, and the cursor is in it. */
    ghost predicate Shows(log: Log, past: seq<bv16>)
      reads this, fb
    {
      && Window(fb[..], log.writes, past, Scrolled(log.row))
      && WrittenBefore(log.writes, (log.row + 1) * COLUMNS)
      && x == log.x < COLUMNS - 1 && y == log.row - Scrolled(log.row)
    }

    constructor (fb: array<bv16>)
      ensures this.fb == fb && x == 0 && y == 0
    {
      this.fb := fb;
      x, y := 0, 0;
    }

    /** console_init */
    method Init()
      requires fb.Length >= SCREEN + COLUMNS
      modifies this, fb
      ensures Shows(EMPTY, old(fb[SCREEN..SCREEN + COLUMNS]))
    {
      x, y := 0, 0;
      for row := 0 to ROWS
        invariant forall i :: 0 <= i < row * COLUMNS ==> fb[i] == BLANK
        invariant fb[SCREEN..] == old(fb[SCREEN..])
        invariant x == 0 && y == 0
      {
        for col := 0 to COLUMNS
          invariant forall i :: 0 <= i < row * COLUMNS + col ==> fb[i] == BLANK
          invariant fb[SCREEN..] == old(fb[SCREEN..])
          invariant x == 0 && y == 0
        {
          fb[row * COLUMNS + col] := SetColor(0x20, LIGHT_GREY, BLACK);
        }
      }
      assert fb[SCREEN..SCREEN + COLUMNS] == fb[SCREEN..][..COLUMNS];
      assert old(fb[SCREEN..SCREEN + COLUMNS]) == old(fb[SCREEN..])[..COLUMNS];
    }

    /** The copying loops of console_scroll. */
    method CopyUp()
      requires fb.Length >= SCREEN + COLUMNS
      modifies fb
      ensures Shifted(old(fb[..]), fb[..], SCREEN)
    {
      hide Shifted;
      NoneShifted(fb[..]);
      for row := 0 to ROWS
        invariant Shifted(old(fb[..]), fb[..], row * COLUMNS)
      {
        for col := 0 to COLUMNS
          invariant Shifted(old(fb[..]), fb[..], row * COLUMNS + col)
        {
          ghost var before := fb[..];
          var dst := row * COLUMNS + col;
          var src := (row + 1) * COLUMNS + col;
          ShiftOne(old(fb[..]), before, dst);
          fb[dst] := fb[src];
          assert fb[..] == before[dst := before[src]];
        }
      }
    }

    /** console_scroll */
    method Scroll()
      requires fb.Length >= SCREEN + COLUMNS
      modifies this`y, fb
      ensures y == if old(y) >= ROWS - 1 then old(y) - 1 else old(y)
      ensures old(y) >= ROWS - 1 ==> Shifted(old(fb[..]), fb[..], SCREEN)
      ensures old(y) < ROWS - 1 ==> fb[..] == old(fb[..])
    {
      if y >= ROWS - 1 {
        CopyUp();
        y := y - 1;
      }
    }

    /** console_put */
    method Put(cnt: Char, ghost log: Log, ghost past: seq<bv16>)
      requires Shows(log, past) && Fits(log, cnt)
      modifies this, fb
      ensures Shows(Advance(log, cnt), past)
    {
      hide Window, CellAt, WrittenBefore, Shifted, Glyph, TabStop;
      ghost var top := Scrolled(log.row);
      ghost var next := Advance(log, cnt);
      ghost var before := fb[..];
      WindowSize(before, log.writes, past, top);
      var index := y * COLUMNS + x;
      if cnt == 0x0A {
        y := y + 1;
        x := 0;
      } else if cnt == 0x08 {
        x := x - 1;
      } else if cnt == 0x09 {
        x := TabStop(x);
      } else if cnt >= 0x20 {
        GlyphIs(cnt);
        WindowWrite(before, log.writes, past, top, index, Glyph(cnt));
        fb[index] := SetColor(cnt as bv16, LIGHT_GREY, BLACK);
        x := x + 1;
        assert fb[..] == before[index := Glyph(cnt)];
        assert top * COLUMNS + index == log.Position();
        WriteIsBefore(log.writes, (log.Position(), Glyph(cnt)), (log.row + 1) * COLUMNS);
      }
      if x >= COLUMNS - 1 {
        y := y + 1;
        x := 0;
      }
      assert Window(fb[..], next.writes, past, top);
      WrittenEarlier(next.writes, (log.row + 1) * COLUMNS, (next.row + 1) * COLUMNS);
      ghost var full := fb[..];
      assert y == next.row - top;
      Scroll();
      if Scrolled(next.row) == top + 1 {
        WrittenEarlier(next.writes, (log.row + 1) * COLUMNS, (top + ROWS) * COLUMNS);
        WindowScroll(full, fb[..], next.writes, past, top);
      }
    }

    /** console_write */
    method Write(cnt: seq<Char>, ghost log: Log, ghost past: seq<bv16>)
      requires Shows(log, past) && AllFit(log, cnt)
      modifies this, fb
      ensures Shows(AdvanceAll(log, cnt), past)
    {
      hide Advance, Fits, Shows;
      ghost var now := log;
      var len := |cnt|;
      assert cnt[0..] == cnt;
      for i := 0 to len
        invariant Shows(now, past) && AllFit(now, cnt[i..])
        invariant AdvanceAll(now, cnt[i..]) == AdvanceAll(log, cnt)
      {
        assert cnt[i..][0] == cnt[i] && cnt[i..][1..] == cnt[i + 1..];
        Put(cnt[i], now, past);
        now := Advance(now, cnt[i]);
      }
    }
  }

  // ---- What the log says ----

  predicate InMargins(log: Log) {
    0 <= log.x < COLUMNS - 1
  }

  /** No backspace at column 0. */
  predicate NoUnderflow(log: Log, s: seq<Char>)
    decreases |s|
  {
    s == [] || ((s[0] == 0x08 ==> log.x > 0) && NoUnderflow(Advance(log, s[0]), s[1..]))
  }

  /** Without a backspace at column 0 the cursor stays between columns 0 and 78 and no write misses the screen. */
  lemma {:induction false} MarginsKept(log: Log, s: seq<Char>)
    requires InMargins(log) && NoUnderflow(log, s)
    ensures InMargins(AdvanceAll(log, s)) && AllFit(log, s)
    decreases |s|
  {
    if s != [] {
      MarginsKept(Advance(log, s[0]), s[1..]);
    }
  }

  /** Without backspaces nothing in front of the cursor is ever written again. */
  lemma {:induction false} PrintedStays(log: Log, s: seq<Char>, past: seq<bv16>, p: nat)
    requires InMargins(log) && 0x08 !in s && |past| == COLUMNS && p < log.Position()
    ensures p < AdvanceAll(log, s).Position()
    ensures CellAt(AdvanceAll(log, s).writes, past, p) == CellAt(log.writes, past, p)
    decreases |s|
  {
    if s != [] {
      hide CellAt;
      CellAppend(log.writes, (log.Position(), if Prints(s[0]) then Glyph(s[0]) else BLANK), past, p);
      PrintedStays(Advance(log, s[0]), s[1..], past, p);
    }
  }

  lemma {:induction false} AdvanceLast(log: Log, s: seq<Char>, c: Char)
    ensures AdvanceAll(log, s + [c]) == Advance(AdvanceAll(log, s), c)
    decreases |s|
  {
    if s != [] {
      AdvanceLast(Advance(log, s[0]), s[1..], c);
      assert (s + [c])[1..] == s[1..] + [c];
    } else {
      assert AdvanceAll(Advance(log, c), []) == Advance(log, c);
    }
  }

  /** Printable text fills 79 cells of each row, and every character of it can be read back from the page. */
  lemma {:induction false} TextWraps(s: seq<Char>, past: seq<bv16>)
    requires |past| == COLUMNS && forall k :: 0 <= k < |s| ==> s[k] >= 0x20
    ensures var log := AdvanceAll(EMPTY, s);
      && log.row == |s| / 79 && log.x == |s| % 79
      && forall k :: 0 <= k < |s| ==> CellAt(log.writes, past, CellOf(k)) == Glyph(s[k])
    decreases |s|
  {
    if s != [] {
      var n := |s| - 1;
      var before := AdvanceAll(EMPTY, s[..n]);
      assert s == s[..n] + [s[n]];
      TextWraps(s[..n], past);
      AdvanceLast(EMPTY, s[..n], s[n]);
      hide CellAt, AdvanceAll, Glyph;
      forall k | 0 <= k < |s| ensures CellAt(AdvanceAll(EMPTY, s).writes, past, CellOf(k)) == Glyph(s[k]) {
        CellAppend(before.writes, (before.Position(), Glyph(s[n])), past, CellOf(k));
        assert k < n ==> s[..n][k] == s[k];
      }
    }
  }

  /** Where the k-th printed character stands. */
  function CellOf(k: nat): nat {
    k / 79 * COLUMNS + k % 79
  }

  lemma WindowSize(fb: seq<bv16>, writes: seq<(int, bv16)>, past: seq<bv16>, top: nat)
    requires Window(fb, writes, past, top)
    ensures |fb| >= SCREEN + COLUMNS
  {
  }

  lemma GlyphIs(c: Char)
    requires c >= 0
    ensures Glyph(c) == SetColor(c as bv16, LIGHT_GREY, BLACK)
  {
  }

  lemma WriteIsBefore(writes: seq<(int, bv16)>, w: (int, bv16), p: int)
    requires WrittenBefore(writes, p) && w.0 < p
    ensures WrittenBefore(writes + [w], p)
  {
  }

  lemma WrittenEarlier(writes: seq<(int, bv16)>, p: int, q: int)
    requires WrittenBefore(writes, p) && p <= q
    ensures WrittenBefore(writes, q)
  {
  }
}
