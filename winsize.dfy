/**
 * Terminal geometry: validation of what the TIOCGWINSZ query reports.
 */
module Winsize {
  import opened Wrappers

  /** unsigned short, the type of the fields of struct winsize. */
  type ushort = x: int | 0 <= x < 0x1_0000

  /** The fields of struct winsize that are read. */
  datatype WinSize = WinSize(row: ushort, col: ushort)

  /** The editor's idea of the screen size. */
  datatype Geometry = Geometry(rows: int, cols: int)

  /**
   * getWindowSize, given the outcome of the query (None when ioctl returns
   * -1). It fails, returning -1 in the source and None here, when the query
   * fails or reports zero columns; otherwise it hands back the reported rows
   * and columns. A zero row count is not rejected.
   */
  function GetWindowSize(query: Option<WinSize>): (g: Option<Geometry>)
    ensures g == None <==> (query == None || query.value.col == 0)
    ensures g != None ==> g.value.rows == query.value.row && g.value.cols == query.value.col
  {
    if query == None || query.value.col == 0 then None
    else Some(Geometry(query.value.row, query.value.col))
  }

  /** On success the width is positive; the height is only known not to be negative. */
  lemma GeometryBounds(query: Option<WinSize>)
    requires GetWindowSize(query) != None
    ensures 0 < GetWindowSize(query).value.cols < 0x1_0000
    ensures 0 <= GetWindowSize(query).value.rows < 0x1_0000
  {
  }

  /** A terminal that reports zero rows and some columns is accepted with zero rows. */
  lemma ZeroRowsAccepted(cols: ushort)
    requires cols > 0
    ensures GetWindowSize(Some(WinSize(0, cols))) == Some(Geometry(0, cols))
  {
  }
}
