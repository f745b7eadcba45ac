/**
 * Terminal attributes and the derivation of the raw attribute set.
 *
 * The four flag words and the control-character array follow the General
 * Terminal Interface of POSIX.1-2017 (XBD chapter 11): input modes 11.2.2,
 * output modes 11.2.3, control modes 11.2.4, local modes 11.2.5 and special
 * characters 11.2.6. POSIX leaves the bit values to the platform; the values
 * below are those of Linux with glibc.
 */
module Termios {

  // c_iflag bits (input modes)
  const BRKINT: bv32 := 0x2
  const INPCK: bv32 := 0x10
  const ISTRIP: bv32 := 0x20
  const ICRNL: bv32 := 0x100
  const IXON: bv32 := 0x400

  // c_oflag bits (output modes)
  const OPOST: bv32 := 0x1

  // c_cflag bits (control modes); on Linux CS8 fills the whole CSIZE field
  const CSIZE: bv32 := 0x30
  const CS8: bv32 := 0x30

  // c_lflag bits (local modes)
  const ISIG: bv32 := 0x1
  const ICANON: bv32 := 0x2
  const ECHO: bv32 := 0x8
  const IEXTEN: bv32 := 0x8000

  // indices into c_cc
  const VTIME: nat := 5
  const VMIN: nat := 6
  const NCCS: nat := 32

  /** The input flags raw mode clears. */
  const RAW_IFLAG_OFF: bv32 := BRKINT | ICRNL | INPCK | ISTRIP | IXON
  /** The local flags raw mode clears. */
  const RAW_LFLAG_OFF: bv32 := ECHO | ICANON | IEXTEN | ISIG

  /** The c_cc array: NCCS bytes of type cc_t. */
  type ControlChars = s: seq<bv8> | |s| == NCCS witness seq(NCCS, _ => 0)

  /** A struct termios: the four flag words and the special characters. */
  datatype Attrs = Attrs(iflag: bv32, oflag: bv32, cflag: bv32, lflag: bv32, cc: ControlChars)

  /** The value of a zero-initialised struct termios. */
  const ZERO_ATTRS: Attrs := Attrs(0, 0, 0, 0, seq(NCCS, _ => 0))

  /** Every bit of mask m is clear in w. */
  predicate Cleared(w: bv32, m: bv32) { w & m == 0 }

  /** Every bit of mask m is set in w. */
  predicate AllSet(w: bv32, m: bv32) { w & m == m }

  /** a and b agree on every bit outside mask m. */
  predicate SameOutside(a: bv32, b: bv32, m: bv32) { a & !m == b & !m }

  /** Bit number b of w. */
  predicate Bit(w: bv32, b: bv32)
    requires b < 32
  {
    (w >> b) & 1 == 1
  }

  /** The control characters agree everywhere except at VMIN and VTIME. */
  predicate SameOtherControlChars(a: ControlChars, b: ControlChars)
  {
    forall i | 0 <= i < NCCS && i != VMIN && i != VTIME :: a[i] == b[i]
  }

  /**
   * The attribute set enableRawMode applies, derived from a copy of the
   * original: the raw-input flags, OPOST and the line-discipline local flags
   * are cleared, CS8 is or-ed in, VMIN becomes 0 and VTIME 1 (a read returns
   * after at most a tenth of a second even when no byte arrived, the
   * non-canonical case of POSIX.1-2017 XBD 11.1.7). Nothing else changes.
   */
  function MakeRaw(t: Attrs): (r: Attrs)
    ensures Cleared(r.iflag, RAW_IFLAG_OFF) && SameOutside(r.iflag, t.iflag, RAW_IFLAG_OFF)
    ensures Cleared(r.oflag, OPOST) && SameOutside(r.oflag, t.oflag, OPOST)
    ensures AllSet(r.cflag, CS8) && SameOutside(r.cflag, t.cflag, CS8)
    ensures Cleared(r.lflag, RAW_LFLAG_OFF) && SameOutside(r.lflag, t.lflag, RAW_LFLAG_OFF)
    ensures r.cc[VMIN] == 0 && r.cc[VTIME] == 1
    ensures SameOtherControlChars(r.cc, t.cc)
  {
    Attrs(t.iflag & !RAW_IFLAG_OFF,
          t.oflag & !OPOST,
          t.cflag | CS8,
          t.lflag & !RAW_LFLAG_OFF,
          t.cc[VMIN := 0][VTIME := 1])
  }

  /** The attribute set is already raw in every respect MakeRaw enforces. */
  predicate IsRaw(t: Attrs)
  {
    && Cleared(t.iflag, RAW_IFLAG_OFF)
    && Cleared(t.oflag, OPOST)
    && AllSet(t.cflag, CS8)
    && Cleared(t.lflag, RAW_LFLAG_OFF)
    && t.cc[VMIN] == 0 && t.cc[VTIME] == 1
  }

  /**
   * Each flag enableRawMode names is cleared, or set, by name: the per-name
   * form of the Cleared and AllSet clauses of MakeRaw's contract.
   */
  lemma RawNamedFlags(t: Attrs)
    ensures var r := MakeRaw(t);
      && r.iflag & BRKINT == 0 && r.iflag & ICRNL == 0 && r.iflag & INPCK == 0
      && r.iflag & ISTRIP == 0 && r.iflag & IXON == 0
      && r.oflag & OPOST == 0
      && r.cflag & CS8 == CS8
      && r.lflag & ECHO == 0 && r.lflag & ICANON == 0
      && r.lflag & IEXTEN == 0 && r.lflag & ISIG == 0
  {
  }

  /*
   * Bit by bit: a bit of a cleared mask is off, a CS8 bit is on, and every
   * other bit of every flag word is the original's.
   */
  lemma RawInputBit(t: Attrs, b: bv32)
    requires b < 32
    ensures Bit(MakeRaw(t).iflag, b) == (Bit(t.iflag, b) && !Bit(RAW_IFLAG_OFF, b))
  {
  }

  lemma RawOutputBit(t: Attrs, b: bv32)
    requires b < 32
    ensures Bit(MakeRaw(t).oflag, b) == (Bit(t.oflag, b) && !Bit(OPOST, b))
  {
  }

  lemma RawControlBit(t: Attrs, b: bv32)
    requires b < 32
    ensures Bit(MakeRaw(t).cflag, b) == (Bit(t.cflag, b) || Bit(CS8, b))
  {
  }

  lemma RawLocalBit(t: Attrs, b: bv32)
    requires b < 32
    ensures Bit(MakeRaw(t).lflag, b) == (Bit(t.lflag, b) && !Bit(RAW_LFLAG_OFF, b))
  {
  }

  /**
   * The character-size field ends up as CS8, an 8-bit character size. This
   * relies on CS8 covering all of CSIZE, as it does on Linux: or-ing CS8 into
   * a field that held another size would not give CS8 where it does not.
   */
  lemma RawCharSize(t: Attrs)
    ensures MakeRaw(t).cflag & CSIZE == CS8
  {
  }

  /** An attribute set is a fixed point of the derivation exactly when it is raw. */
  lemma RawFixedPoint(t: Attrs)
    ensures MakeRaw(t) == t <==> IsRaw(t)
  {
  }

  /** Deriving the raw set from an already raw set gives the same set. */
  lemma RawIdempotent(t: Attrs)
    ensures MakeRaw(MakeRaw(t)) == MakeRaw(t)
  {
  }
}
