/**
 * The bytes the editor writes to standard output to repaint the screen.
 *
 * Two control functions of ECMA-48 are used: ED, Erase in Display (section
 * 8.3.39), with parameter 2 to erase the whole display, written ESC [ 2 J;
 * and CUP, Cursor Position (section 8.3.21), with default parameters to move
 * to line 1, column 1, written ESC [ H.
 */
module Screen {

  const ESC: bv8 := 0x1b
  const TILDE: bv8 := 0x7e
  const CR: bv8 := 0x0d
  const LF: bv8 := 0x0a

  /** ED with parameter 2: ESC [ 2 J. */
  const ERASE_DISPLAY: seq<bv8> := [ESC, 0x5b, 0x32, 0x4a]

  /** CUP with default parameters: ESC [ H. */
  const CURSOR_HOME: seq<bv8> := [ESC, 0x5b, 0x48]

  /** What clearScreen writes: erase the display, then home the cursor. */
  const CLEAR_SCREEN: seq<bv8> := ERASE_DISPLAY + CURSOR_HOME

  /** One placeholder row: "~\r\n". */
  const ROW: seq<bv8> := [TILDE, CR, LF]

  /** n placeholder rows, one after the other; nothing when n is not positive. */
  function Rows(n: int): seq<bv8>
    decreases n
  {
    if n <= 0 then [] else Rows(n - 1) + ROW
  }

  /** The bytes of one editorRefreshScreen with the given row count. */
  function Frame(rows: int): seq<bv8>
  {
    CLEAR_SCREEN + Rows(rows) + CURSOR_HOME
  }

  /** n rows take 3n bytes, and byte k is byte k mod 3 of "~\r\n". */
  lemma {:induction false} RowsLayout(n: nat)
    ensures |Rows(n)| == 3 * n
    ensures forall k | 0 <= k < |Rows(n)| :: Rows(n)[k] == ROW[k % 3]
  {
    if n > 0 {
      RowsLayout(n - 1);
      var prev := Rows(n - 1);
      assert Rows(n) == prev + ROW;
      forall k | 0 <= k < |Rows(n)| ensures Rows(n)[k] == ROW[k % 3] {
        if k < |prev| {
          assert Rows(n)[k] == prev[k];
        } else {
          assert k - 3 * (n - 1) == k % 3;
        }
      }
    }
  }

  /** The number of occurrences of byte x in s. */
  function Count(s: seq<bv8>, x: bv8): nat
  {
    if s == [] then 0 else Count(s[..|s| - 1], x) + (if s[|s| - 1] == x then 1 else 0)
  }

  lemma {:induction false} CountConcat(a: seq<bv8>, b: seq<bv8>, x: bv8)
    ensures Count(a + b, x) == Count(a, x) + Count(b, x)
  {
    if b != [] {
      var b' := b[..|b| - 1];
      assert (a + b)[..|a + b| - 1] == a + b';
      CountConcat(a, b', x);
    } else {
      assert a + b == a;
    }
  }

  lemma {:induction false} CountAbsent(s: seq<bv8>, x: bv8)
    requires x !in s
    ensures Count(s, x) == 0
  {
    if s != [] {
      assert s[..|s| - 1] <= s;
      CountAbsent(s[..|s| - 1], x);
    }
  }

  lemma RowCount()
    ensures Count(ROW, TILDE) == 1 && Count(ROW, CR) == 1 && Count(ROW, LF) == 1
  {
    CountConcat([TILDE], [CR], TILDE);
    CountConcat([TILDE], [CR], CR);
    CountConcat([TILDE], [CR], LF);
    CountConcat([TILDE, CR], [LF], TILDE);
    CountConcat([TILDE, CR], [LF], CR);
    CountConcat([TILDE, CR], [LF], LF);
    assert [TILDE] + [CR] == [TILDE, CR];
    assert [TILDE, CR] + [LF] == ROW;
  }

  /** n rows hold exactly n tildes, n carriage returns and n line feeds. */
  lemma {:induction false} RowsCount(n: nat)
    ensures Count(Rows(n), TILDE) == n
    ensures Count(Rows(n), CR) == n
    ensures Count(Rows(n), LF) == n
  {
    if n > 0 {
      RowsCount(n - 1);
      RowCount();
      CountConcat(Rows(n - 1), ROW, TILDE);
      CountConcat(Rows(n - 1), ROW, CR);
      CountConcat(Rows(n - 1), ROW, LF);
    }
  }

  /**
   * The frame is ESC [ 2 J, ESC [ H, then the rows, then ESC [ H: 10 + 3 rows
   * bytes in all, with row i occupying bytes 7 + 3i up to 7 + 3i + 3.
   */
  lemma FrameLayout(rows: nat)
    ensures |Frame(rows)| == 10 + 3 * rows
    ensures Frame(rows)[..7] == CLEAR_SCREEN
    ensures Frame(rows)[7 + 3 * rows..] == CURSOR_HOME
    ensures forall k | 0 <= k < 3 * rows :: Frame(rows)[7 + k] == ROW[k % 3]
  {
    RowsLayout(rows);
    var f := Frame(rows);
    assert f == CLEAR_SCREEN + Rows(rows) + CURSOR_HOME;
    forall k | 0 <= k < 3 * rows ensures f[7 + k] == ROW[k % 3] {
      assert f[7 + k] == Rows(rows)[k];
    }
  }

  /**
   * A frame draws exactly `rows` placeholder lines: it holds `rows` tildes
   * and `rows` line feeds, since the control sequences contain neither.
   */
  lemma FrameLineCount(rows: nat)
    ensures Count(Frame(rows), TILDE) == rows
    ensures Count(Frame(rows), LF) == rows
  {
    RowsCount(rows);
    CountAbsent(CLEAR_SCREEN, TILDE);
    CountAbsent(CLEAR_SCREEN, LF);
    CountAbsent(CURSOR_HOME, TILDE);
    CountAbsent(CURSOR_HOME, LF);
    CountConcat(CLEAR_SCREEN, Rows(rows), TILDE);
    CountConcat(CLEAR_SCREEN + Rows(rows), CURSOR_HOME, TILDE);
    CountConcat(CLEAR_SCREEN, Rows(rows), LF);
    CountConcat(CLEAR_SCREEN + Rows(rows), CURSOR_HOME, LF);
  }

  /** A row count that is not positive draws the empty frame. */
  lemma FrameNonPositive(rows: int)
    requires rows <= 0
    ensures Frame(rows) == CLEAR_SCREEN + CURSOR_HOME
  {
  }
}
