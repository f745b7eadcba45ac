/**
 * Keys: the control-key mapping, the retry loop over read results that
 * editorReadKey runs, and the one-key dispatch of editorProcessKeypress.
 */
module Keys {

  /** errno for "no data yet" on a non-blocking or timed read (Linux value). */
  const EAGAIN: int := 11

  /** The quit key, Ctrl-Q. */
  const QUIT_KEY: bv8 := 0x11

  /**
   * CTRL_KEY: the byte the terminal sends for Ctrl plus key k, that is k with
   * its top three bits masked off. The result is the low five bits of k.
   */
  function CtrlKey(k: bv8): (r: bv8)
    ensures r < 32
    ensures r as int == k as int % 32
  {
    k & 0x1f
  }

  /** Ctrl-q and Ctrl-Q are both byte 0x11. */
  lemma CtrlQ()
    ensures CtrlKey('q' as int as bv8) == QUIT_KEY
    ensures CtrlKey('Q' as int as bv8) == QUIT_KEY
  {
  }

  /**
   * One result of read(STDIN_FILENO, &c, 1): one byte (return value 1), no
   * byte before the timeout (return value 0), or an error (return value -1)
   * with its errno.
   */
  datatype ReadResult = Got(c: bv8) | NoData | Failed(errno: int)

  /** A result after which editorReadKey reads again. */
  predicate Retry(r: ReadResult)
  {
    r.NoData? || (r.Failed? && r.errno == EAGAIN)
  }

  /**
   * Where a run of the retry loop over a script of read results ends: with a
   * key, with a read error that is fatal, or with the script used up while the
   * loop would still be polling. `rest` is what remains of the script.
   */
  datatype Scan = Key(c: bv8, rest: seq<ReadResult>) | ReadError(errno: int, rest: seq<ReadResult>) | Starved

  /**
   * The loop of editorReadKey over a script: results of 0 bytes and of -1
   * with EAGAIN are skipped; the first result of one byte yields that byte;
   * the first -1 with another errno is fatal.
   */
  function ScanKey(s: seq<ReadResult>): (k: Scan)
    ensures k.Starved? <==> forall j | 0 <= j < |s| :: Retry(s[j])
    ensures !k.Starved? ==>
      && |k.rest| < |s|
      && k.rest == s[|s| - |k.rest|..]
      && (forall j | 0 <= j < |s| - |k.rest| - 1 :: Retry(s[j]))
    ensures k.Key? ==> s[|s| - |k.rest| - 1] == Got(k.c)
    ensures k.ReadError? ==> s[|s| - |k.rest| - 1] == Failed(k.errno) && k.errno != EAGAIN
  {
    if s == [] then Starved
    else match s[0]
      case Got(c) => Key(c, s[1..])
      case NoData => ScanKey(s[1..])
      case Failed(e) => if e == EAGAIN then ScanKey(s[1..]) else ReadError(e, s[1..])
  }

  /**
   * The scan is determined by the first result that is not retried: the byte
   * it carries, or its error.
   */
  lemma {:induction false} ScanKeyAt(s: seq<ReadResult>, i: nat)
    requires i < |s| && !Retry(s[i])
    requires forall j | 0 <= j < i :: Retry(s[j])
    ensures s[i].Got? ==> ScanKey(s) == Key(s[i].c, s[i + 1..])
    ensures s[i].Failed? ==> ScanKey(s) == ReadError(s[i].errno, s[i + 1..])
  {
    if i > 0 {
      assert Retry(s[0]);
      ScanKeyAt(s[1..], i - 1);
      assert s[1..][i - 1 + 1..] == s[i + 1..];
    }
  }

  /** What editorProcessKeypress does with a key. */
  datatype Action = Quit | Continue

  /** The switch of editorProcessKeypress: CTRL_KEY('q') quits, any other byte does nothing. */
  function Dispatch(c: bv8): (a: Action)
    ensures a == Quit <==> c == QUIT_KEY
  {
    if c == CtrlKey('q' as int as bv8) then Quit else Continue
  }
}
