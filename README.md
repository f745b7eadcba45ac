# arc: the terminal-control core of a tiny screen editor, in Dafny

The repository is the skeleton of a terminal text editor, kept in two copies.
`src/arc.c` is the current one; `liledit.c` is an older one that does not ask
for the window size and always draws 24 rows. Both put the controlling
terminal into raw mode, repaint a column of `~` placeholder rows, read keys
until Ctrl-Q and restore the terminal's original attributes on every exit.

This project models that core with the operating system replaced by an
environment fixed when an `Arc.Session` is made:

- the terminal's starting `struct termios` (`Termios.Attrs`: four `bv32` flag
  words and the 32-byte `c_cc` array);
- whether `tcgetattr`, the `tcsetattr` that applies the raw set and the
  `tcsetattr` of the exit hook succeed;
- what the `TIOCGWINSZ` query reports;
- a script of results for successive one-byte `read` calls.

The session records what the process does: every attribute set applied to the
terminal, the mode it is in and the exit status. It also keeps one ordered
trace of `Arc.Event`s: each `write` to standard output with its bytes, each
`perror` with the name of the failing call, and the exit. Standard output is
`Arc.Stdout(trace)` and standard error is `Arc.Stderr(trace)`. Because the two
streams share one trace, the contracts can state the order of actions across
them. `exit` is modelled as `Arc.Session.Exit`, which runs the `atexit` hook
when it was registered.

Modules, one per concern:

- `Termios` (termios.dfy): the flag constants and the raw-set derivation as
  a pure function, following the General Terminal Interface of POSIX.1-2017
  (XBD chapter 11). Input modes are 11.2.2, output modes 11.2.3, control
  modes 11.2.4, local modes 11.2.5 and special characters 11.2.6. VMIN = 0
  with VTIME > 0 is the timed non-canonical read of 11.1.7. The bit values
  are those of Linux with glibc.
- `Screen` (screen.dfy): the repaint bytes. They use ECMA-48 ED, Erase in
  Display (section 8.3.39), as `ESC [ 2 J`, and CUP, Cursor Position
  (section 8.3.21), as `ESC [ H`.
- `Keys` (keys.dfy): `CTRL_KEY`, the retry loop of `editorReadKey` as a
  function over the read script, and the one-key dispatch.
- `Winsize` (winsize.dfy): the validation done by `getWindowSize`.
- `Arc` (arc.dfy): the process of `src/arc.c` as a class whose methods change
  the session state.
- `Liledit` (liledit.dfy): the parts of `liledit.c` that differ. Its
  `terminal_cursorTopLeft`, `clearScreen`, `die`, `disableRawMode`,
  `enableRawMode`, `editorReadKey` and `editorProcessKeypress`
  (liledit.c:18-99) are the same code as in `src/arc.c` and are modelled by
  the same `Arc.Session` methods. Its `editorDrawRows` is
  `Arc.Session.EditorDrawRows` with 24 rows.

`getWindowSize` rejects a zero column count but not a zero row count: a
terminal that reports 0 rows is accepted and gets a frame with no placeholder
rows (`Winsize.ZeroRowsAccepted`). The model keeps that behaviour.

## Model

| member | source | states |
|---|---|---|
| `Keys.CtrlKey` | src/arc.c:11 | the result is below 32 and equals the key modulo 32, so only the low five bits survive |
| `Keys.CtrlQ` | liledit.c:10 | `CTRL_KEY('q')` and `CTRL_KEY('Q')` are both 0x11 |
| `Termios.MakeRaw` | src/arc.c:65-89 | BRKINT, ICRNL, INPCK, ISTRIP, IXON, OPOST, ECHO, ICANON, IEXTEN and ISIG are cleared, the CS8 bits are set, every other flag bit keeps its original value, VMIN is 0, VTIME is 1 and every other control character is unchanged |
| `Termios.RawNamedFlags` | liledit.c:53-65 | each flag named in the derivation is off afterwards, and CS8 is on |
| `Termios.RawInputBit` | src/arc.c:72 | bit b of the raw `c_iflag` is on exactly when it was on originally and is not one of the five cleared input flags |
| `Termios.RawOutputBit` | src/arc.c:75 | bit b of the raw `c_oflag` is on exactly when it was on originally and is not OPOST |
| `Termios.RawControlBit` | src/arc.c:78 | bit b of the raw `c_cflag` is on exactly when it was on originally or belongs to CS8 |
| `Termios.RawLocalBit` | src/arc.c:84 | bit b of the raw `c_lflag` is on exactly when it was on originally and is not ECHO, ICANON, IEXTEN or ISIG |
| `Termios.RawCharSize` | liledit.c:58-59 | the character-size field of the raw set is CS8, an 8-bit size |
| `Termios.RawFixedPoint` | liledit.c:46-70 | an attribute set is unchanged by the derivation if and only if it is already raw in every respect the derivation enforces |
| `Termios.RawIdempotent` | src/arc.c:65-89 | deriving raw from a raw set derived before gives the same set |
| `Winsize.GetWindowSize` | src/arc.c:25-35 | fails exactly when the query fails or reports zero columns; on success the rows and columns are the reported ones |
| `Winsize.GeometryBounds` | src/arc.c:28-33 | on success the width is between 1 and 65535 and the height between 0 and 65535 |
| `Winsize.ZeroRowsAccepted` | src/arc.c:28 | zero rows with a positive width is accepted as a zero-row geometry |
| `Screen.RowsLayout` | src/arc.c:122-127 | n placeholder rows are 3n bytes, byte k being byte k mod 3 of `~\r\n` |
| `Screen.RowsCount` | liledit.c:103-108 | n placeholder rows hold exactly n tildes, n carriage returns and n line feeds |
| `Screen.FrameLayout` | src/arc.c:129-135 | a frame is `ESC[2J ESC[H`, then the rows, then `ESC[H`, 10 + 3·rows bytes long |
| `Screen.FrameLineCount` | src/arc.c:122-135 | a frame holds exactly `rows` tildes and `rows` line feeds, since the control sequences contain neither |
| `Screen.FrameNonPositive` | src/arc.c:124 | a row count that is not positive draws no placeholder row |
| `Keys.ScanKey` | src/arc.c:98-107 | the read loop ends with a key exactly when, after a run of reads of 0 bytes or -1 with EAGAIN, a read returns one byte, and that byte is the key; it ends fatally when the first other result is -1 with another errno; it finds nothing when every result is retried |
| `Keys.ScanKeyAt` | liledit.c:79-88 | given the first result that is not retried, the loop returns its byte, or fails with its errno, and leaves the results after it unread |
| `Keys.Dispatch` | src/arc.c:112-117 | the keypress quits exactly when the byte is 0x11 |
| `Arc.Session.constructor` | src/arc.c:15-21 | the process starts with no capture, no hook, zero rows and columns, an empty trace and the terminal in its starting set |
| `Arc.Session.CursorTopLeft` | src/arc.c:37-39 | appends one write of `ESC [ H` to the trace |
| `Arc.Session.ClearScreen` | src/arc.c:41-44 | appends a write of `ESC [ 2 J` and then a write of `ESC [ H` |
| `Arc.ClearStreams` | src/arc.c:41-44 | the two writes of a clear screen put `ESC[2J ESC[H` on standard output and nothing on standard error |
| `Arc.Session.Die` | src/arc.c:46-51 | appends, in this order, the two writes of the clear screen, the diagnostic naming the failing call, and the exit with status 1; the exit runs the hook |
| `Arc.DieOrder` | src/arc.c:46-51 | the events of `die` put exactly `ESC[2J ESC[H` on standard output and the call alone on standard error; the whole clear screen is written before the diagnostic, and the exit comes last |
| `Arc.Session.DisableRawMode` | src/arc.c:53-57 | re-applies the captured original when tcsetattr succeeds and changes nothing when it fails |
| `Arc.Session.Exit` | src/arc.c:50-63 | models `exit` as called at lines 50 and 115: the status is set, the exit is appended to the trace and, when the hook registered at line 63 is present, the original attributes are back in force if they could be applied |
| `Arc.Session.EnableRawMode` | src/arc.c:59-94 | a failed capture dies with no hook and nothing applied; otherwise the capture is the starting set, the hook is registered before anything is applied, and the raw set derived from the capture is applied or the process dies naming tcsetattr |
| `Arc.Session.InitEditor` | src/arc.c:139-143 | a failed or zero-width size query dies naming getWindowSize; otherwise rows and columns are the reported ones and nothing is written |
| `Arc.Session.EditorReadKey` | src/arc.c:98-107 | consumes the scripted reads as `Keys.ScanKey` says and returns its key; a fatal read result dies naming read, and nothing else is written |
| `Arc.KeyStreams` | src/arc.c:109-118 | a keypress writes `ESC[2J ESC[H` exactly when it ends the process, names read on standard error exactly when the read was fatal, writes nothing when it does not end the process, and otherwise ends with the exit |
| `Arc.Session.EditorProcessKeypress` | src/arc.c:109-118 | byte 0x11 appends the clear screen and then the exit with status 0; a fatal read dies; any other byte appends nothing and leaves the process running |
| `Arc.Session.EditorDrawRows` | src/arc.c:122-127 | appends `count` writes of `~\r\n` |
| `Arc.RowStreams` | src/arc.c:122-127 | the row writes put exactly `Screen.Rows(n)` on standard output and nothing on standard error |
| `Arc.Session.EditorRefreshScreen` | src/arc.c:129-135 | appends the clear screen, the row writes and a cursor home, in that order; the column count plays no part |
| `Arc.FrameStreams` | src/arc.c:129-135 | a refresh consists of writes only, and they put exactly the frame on standard output |
| `Arc.Session.Step` | src/arc.c:149-152 | one loop pass appends the refresh for `config.rows`, then the keypress's events, and exits only as the keypress says |
| `Arc.Session.Start` | src/arc.c:145-147 | each startup failure leaves exactly the events of `die` for the failing call in the trace and exits with status 1, and every exit after the capture restores the original when it can; on success the terminal is raw, the geometry is the reported one and nothing is written |
| `Arc.Session.Run` | src/arc.c:145-155 | while the process runs the terminal is raw; after any exit that follows the capture, the terminal holds the original attributes whenever the hook could restore them |
| `Liledit.FixedFrame` | liledit.c:103-116 | the 24-row frame is 82 bytes: `ESC[2J ESC[H`, 24 placeholder rows, then `ESC[H` |
| `Liledit.EditorRefreshScreen` | liledit.c:110-116 | appends the refresh events for 24 rows |
| `Liledit.Step` | liledit.c:123-126 | one loop pass appends the 24-row refresh, then the keypress's events, and exits only as the keypress says |
| `Liledit.Run` | liledit.c:120-129 | without a size query: a failed capture dies naming tcgetattr with nothing applied; while running the terminal is raw; after an exit that follows the capture the original is back whenever it can be applied |

## Left out

- The system calls are not modelled. This covers what the driver does with `tcsetattr` and `TCSAFLUSH` (draining output and discarding unread input), the `ioctl` mechanism and file descriptors. Their outcomes are environment inputs of `Arc.Session`.
- `write` is assumed to deliver every byte. The source ignores its result, so short writes and write errors are not modelled.
- The text `perror` prints is not modelled. A diagnostic is recorded only as the name of the failing call.
- The real-time behaviour of reads is not modelled: the 0.1 s VTIME wait and the liveness of polling. Reads are a finite script of results.
- `Arc.Session.EditorReadKey`: when the script runs out, it returns no key and the process keeps running. The source would go on polling instead.
- `Arc.Session.DisableRawMode`: when the hook's `tcsetattr` fails, the source calls `die`, and so `exit`, from inside the exit hook. That is undefined behaviour in C. The model leaves the attributes as they were and does not model that second `die`.
- The unbounded main loop is cut off after a given number of passes (`Arc.Session.Run`, `Liledit.Run`).
- Terminal resize is handled by neither copy and is not modelled.
- Only the fields the derivation touches are modelled: the four flag words and `c_cc`. The copy leaves `c_line` and the line speeds unchanged.
- Bit values are those of Linux with glibc. On another platform the masks differ. There, CS8 may not fill CSIZE, and or-ing it in may not yield an 8-bit size (see `Termios.RawCharSize`).
- Input bytes are `bv8`, while the source reads into a `char` that may be signed. Comparing with 0x11 gives the same answer either way.
