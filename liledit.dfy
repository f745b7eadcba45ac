/**
 * The older copy of the editor, liledit.c. Its terminal code, key reader and
 * dispatcher are the same as those of src/arc.c and are modelled by the same
 * members of Arc.Session; what differs is that it never queries the window
 * size and always draws 24 rows.
 */
module Liledit {
  import opened Wrappers
  import opened Termios
  import opened Screen
  import opened Keys
  import opened Arc

  /** The fixed row count of editorDrawRows in liledit.c. */
  const SCREEN_ROWS: int := 24

  /**
   * The 24-row frame: ESC [ 2 J, ESC [ H, 24 times "~\r\n", ESC [ H, which
   * is 82 bytes.
   */
  lemma FixedFrame()
    ensures |Frame(SCREEN_ROWS)| == 82
    ensures Frame(SCREEN_ROWS)[..7] == CLEAR_SCREEN
    ensures Frame(SCREEN_ROWS)[79..] == CURSOR_HOME
    ensures Count(Frame(SCREEN_ROWS), TILDE) == 24 && Count(Frame(SCREEN_ROWS), LF) == 24
  {
    FrameLayout(24);
    FrameLineCount(24);
  }

  /** editorRefreshScreen of liledit.c: the frame with 24 rows. */
  method EditorRefreshScreen(s: Session)
    modifies s`trace
    ensures s.trace == old(s.trace) + FrameEvents(SCREEN_ROWS)
  {
    s.EditorRefreshScreen(SCREEN_ROWS);
  }

  /** One pass of the main loop of liledit.c. */
  method Step(s: Session) returns (ghost scan: Scan)
    requires s.Valid() && s.status == None
    modifies s`input
    modifies s`trace, s`device, s`mode, s`applied, s`status
    ensures s.Valid()
    ensures scan == ScanKey(old(s.input))
    ensures s.trace == old(s.trace) + FrameEvents(SCREEN_ROWS) + KeyEvents(scan)
    ensures s.KeyHandled(scan)
  {
    EditorRefreshScreen(s);
    scan := s.EditorProcessKeypress();
  }

  /**
   * main of liledit.c with the loop cut off after `steps` passes:
   * enableRawMode, then the loop, with no geometry query.
   */
  method Run(s: Session, steps: nat)
    requires s.AtStart()
    modifies s
    ensures s.Valid()
    ensures !s.getattrOk ==>
      && s.status == Some(1) && s.applied == [] && !s.hookRegistered
      && s.trace == DieEvents("tcgetattr")
    ensures s.status == None ==> s.mode == Raw && s.device == MakeRaw(s.initial)
    ensures s.status != None && s.captured && s.restoreOk ==> s.device == s.initial && s.mode == Cooked
  {
    s.EnableRawMode();
    if s.status != None {
      return;
    }
    var i := 0;
    while i < steps && s.status == None
      invariant s.Valid() && s.captured
      invariant s.status == None ==> s.mode == Raw
    {
      ghost var _ := Step(s);
      i := i + 1;
    }
  }
}
