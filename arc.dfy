/**
 * The editor process of src/arc.c together with the terminal it drives.
 *
 * The operating system is replaced by an environment fixed when the session
 * is made: the attributes the terminal starts with, whether tcgetattr and each
 * of the two tcsetattr calls succeed, what the window-size query reports, and
 * a script of results for successive reads. The session records what the
 * process does to that environment: the attribute sets applied to the
 * terminal and, in one ordered trace, every write to standard output, every
 * diagnostic on standard error and the exit.
 */
module Arc {
  import opened Wrappers
  import opened Termios
  import opened Screen
  import opened Keys
  import opened Winsize

  /** Which attribute set the terminal is in: the original one or the raw one. */
  datatype Mode = Cooked | Raw

  /**
   * One observable action of the process: a write to standard output, a
   * diagnostic naming a failed call on standard error, or the end of the
   * process with its exit status. A trace lists them in the order they
   * happen, across both streams.
   */
  datatype Event = Out(bytes: seq<bv8>) | Err(call: string) | Exited(code: int)

  /** What the events wrote to standard output, in order. */
  function Stdout(t: seq<Event>): (o: seq<bv8>)
    ensures t == [] ==> o == []
  {
    if t == [] then [] else Stdout(t[..|t| - 1]) + (if t[|t| - 1].Out? then t[|t| - 1].bytes else [])
  }

  /** What the events wrote to standard error, in order. */
  function Stderr(t: seq<Event>): (e: seq<string>)
    ensures |e| <= |t|
  {
    if t == [] then [] else Stderr(t[..|t| - 1]) + (if t[|t| - 1].Err? then [t[|t| - 1].call] else [])
  }

  /** Each stream of a trace split in two is the stream of the first part followed by that of the second. */
  lemma {:induction false} StreamsConcat(t: seq<Event>, u: seq<Event>)
    ensures Stdout(t + u) == Stdout(t) + Stdout(u)
    ensures Stderr(t + u) == Stderr(t) + Stderr(u)
  {
    if u == [] {
      assert t + u == t;
    } else {
      var u' := u[..|u| - 1];
      assert (t + u)[..|t + u| - 1] == t + u';
      StreamsConcat(t, u');
    }
  }

  /** The two writes of clearScreen: erase the display, then home the cursor. */
  const CLEAR_EVENTS: seq<Event> := [Out(ERASE_DISPLAY), Out(CURSOR_HOME)]

  /** clearScreen's writes are the clear-screen bytes on standard output. */
  lemma ClearStreams()
    ensures Stdout(CLEAR_EVENTS) == CLEAR_SCREEN && Stderr(CLEAR_EVENTS) == []
  {
    assert CLEAR_EVENTS[..1] == [Out(ERASE_DISPLAY)];
    assert [Out(ERASE_DISPLAY)][..0] == [];
  }

  /** What die(s) does, in order: clear the screen, report s, exit with status 1. */
  function DieEvents(s: string): seq<Event>
  {
    CLEAR_EVENTS + [Err(s), Exited(1)]
  }

  /**
   * die(s) writes the clear-screen sequence and nothing else to standard
   * output and names s alone on standard error; the whole clear screen is
   * written before the diagnostic, and the exit comes last.
   */
  lemma DieOrder(s: string)
    ensures Stdout(DieEvents(s)) == CLEAR_SCREEN && Stderr(DieEvents(s)) == [s]
    ensures var t := DieEvents(s); t[|t| - 1] == Exited(1)
    ensures forall i | 0 <= i < |DieEvents(s)| && DieEvents(s)[i].Err? ::
      Stdout(DieEvents(s)[..i]) == CLEAR_SCREEN
  {
    var t := DieEvents(s);
    ClearStreams();
    StreamsConcat(CLEAR_EVENTS, [Err(s)]);
    StreamsConcat(CLEAR_EVENTS + [Err(s)], [Exited(1)]);
    assert t == CLEAR_EVENTS + [Err(s)] + [Exited(1)];
    assert t[..2] == CLEAR_EVENTS;
  }

  /** The writes of editorDrawRows for n rows: one "~\r\n" each. */
  function RowEvents(n: int): seq<Event>
    decreases n
  {
    if n <= 0 then [] else RowEvents(n - 1) + [Out(ROW)]
  }

  /** The writes of editorRefreshScreen for the given row count. */
  function FrameEvents(rows: int): seq<Event>
  {
    CLEAR_EVENTS + RowEvents(rows) + [Out(CURSOR_HOME)]
  }

  /** The row writes put exactly Rows(n) on standard output and nothing on standard error. */
  lemma {:induction false} RowStreams(n: int)
    ensures Stdout(RowEvents(n)) == Rows(n) && Stderr(RowEvents(n)) == []
    decreases n
  {
    if n > 0 {
      RowStreams(n - 1);
      StreamsConcat(RowEvents(n - 1), [Out(ROW)]);
    }
  }

  /** A refresh puts exactly the frame on standard output, nothing on standard error, and does not exit. */
  lemma FrameStreams(rows: int)
    ensures Stdout(FrameEvents(rows)) == Frame(rows) && Stderr(FrameEvents(rows)) == []
    ensures forall i | 0 <= i < |FrameEvents(rows)| :: FrameEvents(rows)[i].Out?
  {
    var head := CLEAR_EVENTS + RowEvents(rows);
    ClearStreams();
    RowStreams(rows);
    RowsAreWrites(rows);
    StreamsConcat(CLEAR_EVENTS, RowEvents(rows));
    StreamsConcat(head, [Out(CURSOR_HOME)]);
    assert [Out(CURSOR_HOME)][..0] == [];
    assert Stdout([Out(CURSOR_HOME)]) == CURSOR_HOME && Stderr([Out(CURSOR_HOME)]) == [];
  }

  /** Every row event is a write. */
  lemma {:induction false} RowsAreWrites(n: int)
    ensures forall i | 0 <= i < |RowEvents(n)| :: RowEvents(n)[i].Out?
    decreases n
  {
    if n > 0 {
      RowsAreWrites(n - 1);
    }
  }

  /** What a keypress step still has to read once the scan is over. */
  ghost function KeyRest(k: Scan): seq<ReadResult>
  {
    if k.Starved? then [] else k.rest
  }

  /** The exit status a keypress step ends the process with, if any. */
  ghost function KeyStatus(k: Scan): Option<int>
  {
    match k
    case Key(c, _) => if c == QUIT_KEY then Some(0) else None
    case ReadError(_, _) => Some(1)
    case Starved => None
  }

  /**
   * The events of a keypress step: Ctrl-Q clears the screen and exits with
   * status 0; a fatal read dies; anything else does nothing observable.
   */
  ghost function KeyEvents(k: Scan): seq<Event>
  {
    match k
    case Key(c, _) => if c == QUIT_KEY then CLEAR_EVENTS + [Exited(0)] else []
    case ReadError(_, _) => DieEvents("read")
    case Starved => []
  }

  /**
   * A keypress step writes the clear screen exactly when it ends the process,
   * names "read" on standard error exactly when the read was fatal, and, when
   * it ends the process, ends its events with that exit.
   */
  lemma KeyStreams(k: Scan)
    ensures Stdout(KeyEvents(k)) == (if KeyStatus(k) != None then CLEAR_SCREEN else [])
    ensures Stderr(KeyEvents(k)) == (if k.ReadError? then ["read"] else [])
    ensures KeyStatus(k) != None <==> KeyEvents(k) != []
    ensures KeyStatus(k) != None ==> KeyEvents(k)[|KeyEvents(k)| - 1] == Exited(KeyStatus(k).value)
  {
    ClearStreams();
    match k
    case Key(c, _) =>
      if c == QUIT_KEY {
        StreamsConcat(CLEAR_EVENTS, [Exited(0)]);
      }
    case ReadError(_, _) =>
      DieOrder("read");
    case Starved =>
  }

  class Session {
    // The environment.
    /** The attributes the terminal has when the process starts. */
    const initial: Attrs
    /** Whether tcgetattr succeeds. */
    const getattrOk: bool
    /** Whether the tcsetattr that applies the raw set succeeds. */
    const rawApplyOk: bool
    /** Whether the tcsetattr of the exit hook, restoring the original, succeeds. */
    const restoreOk: bool
    /** What TIOCGWINSZ reports; None when the ioctl fails. */
    const winsize: Option<WinSize>

    // The terminal.
    /** The attributes currently in force. */
    var device: Attrs
    var mode: Mode
    /** Every attribute set applied successfully, in order. */
    var applied: seq<Attrs>
    /** The results the remaining reads will return. */
    var input: seq<ReadResult>

    // The process.
    /** config.original_termios */
    var original: Attrs
    /** Whether tcgetattr has filled in original. */
    var captured: bool
    /** Whether disableRawMode is registered with atexit. */
    var hookRegistered: bool
    /** config.rows and config.cols */
    var rows: int
    var cols: int
    /** The exit status once the process has exited. */
    var status: Option<int>
    /**
     * Everything written to standard output and standard error, and the
     * exit, in the order it happened. Stdout(trace) is standard output and
     * Stderr(trace) standard error.
     */
    var trace: seq<Event>

    /**
     * The session invariant: the terminal part below, and once the process
     * has exited, its exit is the last event of the trace.
     */
    ghost predicate Valid()
      reads this
    {
      Terminal() && ExitLast()
    }

    /**
     * The hook is registered exactly when the original was captured, and the
     * capture is the terminal's starting set; nothing is applied before the
     * capture; the terminal holds the original set or the raw set derived
     * from it, as the mode says; and once the process has exited with its
     * hook registered and able to restore, the terminal is back in the
     * original set.
     */
    ghost predicate Terminal()
      reads this`hookRegistered, this`captured, this`original, this`applied, this`mode, this`device
      reads this`status, this`rows, this`cols
    {
      && hookRegistered == captured
      && (captured ==> original == initial)
      && (!captured ==> applied == [] && mode == Cooked)
      && device == (if mode == Raw then MakeRaw(initial) else initial)
      && (forall t | t in applied :: t == initial || t == MakeRaw(initial))
      && (applied != [] ==> applied[|applied| - 1] == device)
      && (status != None && captured && restoreOk ==> mode == Cooked && device == original)
      && (status == None || status == Some(0) || status == Some(1))
      && rows >= 0 && cols >= 0
    }

    /** Once the process has exited, its exit is the last event of the trace. */
    ghost predicate ExitLast()
      reads this`status, this`trace
    {
      status != None ==> trace != [] && trace[|trace| - 1] == Exited(status.value)
    }

    /** The state before main runs. */
    ghost predicate AtStart()
      reads this
    {
      && Valid()
      && !captured && status == None && trace == []
      && rows == 0 && cols == 0
    }

    /**
     * exit(code) has run: the status is code and the atexit hook, when it was
     * registered, has restored the original attributes if it could.
     */
    twostate predicate ExitedWith(code: int)
      reads this
    {
      && status == Some(code)
      && if hookRegistered && restoreOk then
           device == original && mode == Cooked && applied == old(applied) + [original]
         else
           device == old(device) && mode == old(mode) && applied == old(applied)
    }

    /**
     * die(call) has run: the screen was cleared, call was named on standard
     * error and the process exited with status 1, in that order.
     */
    twostate predicate Died(call: string)
      reads this
    {
      ExitedWith(1) && trace == old(trace) + DieEvents(call)
    }

    /**
     * A keypress has been handled whose read loop ended as k: the reads it
     * consumed are gone, and the process exited as k calls for or, when k
     * calls for no exit, the terminal is untouched.
     */
    twostate predicate KeyHandled(k: Scan)
      reads this
    {
      && input == KeyRest(k)
      && (KeyStatus(k) == None ==>
            status == None && device == old(device) && mode == old(mode) && applied == old(applied))
      && (KeyStatus(k) != None ==> ExitedWith(KeyStatus(k).value))
    }

    constructor (initial: Attrs, getattrOk: bool, rawApplyOk: bool, restoreOk: bool,
                 winsize: Option<WinSize>, input: seq<ReadResult>)
      ensures AtStart()
      ensures this.initial == initial && this.getattrOk == getattrOk
      ensures this.rawApplyOk == rawApplyOk && this.restoreOk == restoreOk
      ensures this.winsize == winsize && this.input == input
      ensures device == initial && applied == []
    {
      this.initial := initial;
      this.getattrOk := getattrOk;
      this.rawApplyOk := rawApplyOk;
      this.restoreOk := restoreOk;
      this.winsize := winsize;
      this.input := input;
      device := initial;
      mode := Cooked;
      applied := [];
      original := ZERO_ATTRS;
      captured := false;
      hookRegistered := false;
      rows, cols := 0, 0;
      status := None;
      trace := [];
    }

    /** write(STDOUT_FILENO, ...): the bytes go to standard output. */
    method Write(bytes: seq<bv8>)
      modifies this`trace
      ensures trace == old(trace) + [Out(bytes)]
    {
      trace := trace + [Out(bytes)];
    }

    /** terminal_cursorTopLeft */
    method CursorTopLeft()
      modifies this`trace
      ensures trace == old(trace) + [Out(CURSOR_HOME)]
    {
      Write(CURSOR_HOME);
    }

    /** clearScreen: erase the display, then home the cursor. */
    method ClearScreen()
      modifies this`trace
      ensures trace == old(trace) + CLEAR_EVENTS
    {
      Write(ERASE_DISPLAY);
      CursorTopLeft();
    }

    /** disableRawMode: re-apply the captured original attributes. */
    method DisableRawMode()
      requires Valid() && captured
      modifies this`device, this`mode, this`applied
      ensures Valid()
      ensures restoreOk ==> device == original && mode == Cooked && applied == old(applied) + [original]
      ensures !restoreOk ==> device == old(device) && mode == old(mode) && applied == old(applied)
    {
      if restoreOk {
        device := original;
        mode := Cooked;
        applied := applied + [original];
      }
      // When tcsetattr fails here the source calls die from inside the exit
      // hook, a second call of exit; that path is not modelled.
    }

    /** exit(code): run the registered atexit hook, then terminate with code. */
    method Exit(code: int)
      requires Valid() && status == None
      requires code == 0 || code == 1
      modifies this`device, this`mode, this`applied, this`status, this`trace
      ensures Valid() && ExitedWith(code)
      ensures trace == old(trace) + [Exited(code)]
    {
      if hookRegistered {
        DisableRawMode();
      }
      status := Some(code);
      trace := trace + [Exited(code)];
    }

    /**
     * die(s): clear the screen, report s on standard error (perror), exit
     * with status 1. The trace fixes the order: both writes of the clear
     * screen, then the diagnostic, then the exit.
     */
    method Die(s: string)
      requires Valid() && status == None
      modifies this`trace, this`device, this`mode, this`applied, this`status
      ensures Valid() && ExitedWith(1)
      ensures trace == old(trace) + [Out(ERASE_DISPLAY), Out(CURSOR_HOME), Err(s), Exited(1)]
    {
      ClearScreen();
      trace := trace + [Err(s)];
      Exit(1);
    }

    /**
     * enableRawMode: capture the original attributes (dying if that fails),
     * register the restoring hook, derive the raw set from the capture and
     * apply it (dying if that fails).
     */
    method EnableRawMode()
      requires Valid() && !captured && status == None
      modifies this`original, this`captured, this`hookRegistered
      modifies this`trace, this`device, this`mode, this`applied, this`status
      ensures Valid()
      ensures captured == getattrOk && hookRegistered == getattrOk
      ensures !getattrOk ==> Died("tcgetattr") && applied == [] && mode == Cooked
      ensures getattrOk ==> original == initial
      ensures getattrOk && !rawApplyOk ==> Died("tcsetattr")
      ensures getattrOk && rawApplyOk ==>
        && status == None && mode == Raw
        && device == MakeRaw(original) && applied == [MakeRaw(original)]
        && trace == old(trace)
    {
      if !getattrOk {
        Die("tcgetattr");
        return;
      }
      original := initial;
      captured := true;
      hookRegistered := true;
      var raw := MakeRaw(original);
      if !rawApplyOk {
        Die("tcsetattr");
        return;
      }
      device := raw;
      mode := Raw;
      applied := applied + [raw];
    }

    /** initEditor: take the geometry from getWindowSize, or die. */
    method InitEditor()
      requires Valid() && status == None
      modifies this`rows, this`cols
      modifies this`trace, this`device, this`mode, this`applied, this`status
      ensures Valid()
      ensures GetWindowSize(winsize) == None ==>
        Died("getWindowSize") && rows == old(rows) && cols == old(cols)
      ensures GetWindowSize(winsize) != None ==>
        && rows == GetWindowSize(winsize).value.rows && cols == GetWindowSize(winsize).value.cols
        && status == None && trace == old(trace)
        && device == old(device) && mode == old(mode) && applied == old(applied)
    {
      var g := GetWindowSize(winsize);
      if g == None {
        Die("getWindowSize");
        return;
      }
      GeometryBounds(winsize);
      rows, cols := g.value.rows, g.value.cols;
    }

    /**
     * editorReadKey: read until a read returns one byte, skipping reads of
     * no byte and reads failing with EAGAIN; any other failure is fatal. When
     * the script runs out the loop would still be polling; the model then
     * returns None with the process still running. The ghost result `scan`
     * names how the loop ends.
     */
    method EditorReadKey() returns (key: Option<bv8>, ghost scan: Scan)
      requires Valid() && status == None
      modifies this`input
      modifies this`trace, this`device, this`mode, this`applied, this`status
      ensures Valid()
      ensures scan == ScanKey(old(input))
      ensures input == KeyRest(scan)
      ensures key == (if scan.Key? then Some(scan.c) else None)
      ensures scan.ReadError? ==> Died("read")
      ensures !scan.ReadError? ==>
        && status == None && trace == old(trace)
        && device == old(device) && mode == old(mode) && applied == old(applied)
    {
      scan := ScanKey(input);
      while input != []
        invariant Valid() && status == None
        invariant ScanKey(input) == scan
        invariant trace == old(trace)
        invariant device == old(device) && mode == old(mode) && applied == old(applied)
        decreases |input|
      {
        var r := input[0];
        input := input[1..];
        match r
        case Got(c) =>
          return Some(c), scan;
        case NoData =>
        case Failed(e) =>
          if e != EAGAIN {
            Die("read");
            return None, scan;
          }
      }
      return None, scan;
    }

    /** editorProcessKeypress: read a key; Ctrl-Q clears the screen and exits with status 0. */
    method EditorProcessKeypress() returns (ghost scan: Scan)
      requires Valid() && status == None
      modifies this`input
      modifies this`trace, this`device, this`mode, this`applied, this`status
      ensures Valid()
      ensures scan == ScanKey(old(input))
      ensures trace == old(trace) + KeyEvents(scan)
      ensures KeyHandled(scan)
    {
      var c;
      c, scan := EditorReadKey();
      if status != None {
        return;
      }
      if c != None && Dispatch(c.value) == Quit {
        ClearScreen();
        Exit(0);
      }
    }

    /** editorDrawRows: one "~\r\n" per row, for count rows. */
    method EditorDrawRows(count: int)
      modifies this`trace
      ensures trace == old(trace) + RowEvents(count)
    {
      var y := 0;
      while y < count
        invariant 0 <= y
        invariant count >= 0 ==> y <= count
        invariant count < 0 ==> y == 0
        invariant trace == old(trace) + RowEvents(y)
      {
        Write(ROW);
        y := y + 1;
      }
    }

    /**
     * editorRefreshScreen: clear the screen, draw count rows, home the cursor.
     * In src/arc.c count is config.rows.
     */
    method EditorRefreshScreen(count: int)
      modifies this`trace
      ensures trace == old(trace) + FrameEvents(count)
    {
      ClearScreen();
      EditorDrawRows(count);
      CursorTopLeft();
    }

    /** One pass of the main loop of src/arc.c: refresh, then process a keypress. */
    method Step() returns (ghost scan: Scan)
      requires Valid() && status == None
      modifies this`input
      modifies this`trace, this`device, this`mode, this`applied, this`status
      ensures Valid()
      ensures scan == ScanKey(old(input))
      ensures trace == old(trace) + FrameEvents(rows) + KeyEvents(scan)
      ensures KeyHandled(scan)
    {
      EditorRefreshScreen(rows);
      scan := EditorProcessKeypress();
    }

    /**
     * main of src/arc.c up to the loop: enableRawMode, then initEditor. Each
     * failure ends the process with status 1 after a clear screen and a
     * diagnostic; every exit after the capture restores the original set.
     */
    method Start()
      requires AtStart()
      modifies this
      ensures Valid() && input == old(input)
      ensures !getattrOk ==>
        && status == Some(1) && !hookRegistered && applied == [] && device == initial
        && trace == DieEvents("tcgetattr")
      ensures getattrOk && !rawApplyOk ==>
        && status == Some(1) && hookRegistered && device == initial
        && applied == (if restoreOk then [initial] else [])
        && trace == DieEvents("tcsetattr")
      ensures getattrOk && rawApplyOk && GetWindowSize(winsize) == None ==>
        && status == Some(1) && hookRegistered
        && applied == (if restoreOk then [MakeRaw(initial), initial] else [MakeRaw(initial)])
        && (restoreOk ==> device == initial)
        && trace == DieEvents("getWindowSize")
      ensures getattrOk && rawApplyOk && GetWindowSize(winsize) != None ==>
        && status == None && mode == Raw && device == MakeRaw(initial) && applied == [MakeRaw(initial)]
        && Some(Geometry(rows, cols)) == GetWindowSize(winsize)
        && trace == []
    {
      EnableRawMode();
      if status != None {
        return;
      }
      InitEditor();
    }

    /**
     * main of src/arc.c with the loop cut off after `steps` passes. While
     * the process runs the terminal is raw; once it has exited after the
     * capture, the original set is back whenever the hook could restore it.
     */
    method Run(steps: nat)
      requires AtStart()
      modifies this
      ensures Valid()
      ensures status == None ==> mode == Raw && device == MakeRaw(initial)
      ensures status != None && captured && restoreOk ==> device == initial && mode == Cooked
      ensures !getattrOk ==> status == Some(1) && applied == [] && !hookRegistered
    {
      Start();
      if status != None {
        return;
      }
      var i := 0;
      while i < steps && status == None
        invariant Valid() && captured && getattrOk
        invariant status == None ==> mode == Raw
      {
        ghost var _ := Step();
        i := i + 1;
      }
    }
  }
}
