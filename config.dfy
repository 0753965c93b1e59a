/** Fixed parameters of the analysis (src/global_vars.hpp). */
module Config {
  /** Rows and columns of one Hamamatsu tray. */
  const NROW: int := 20
  const NCOL: int := 23
  /** Size of every per-tray array: one entry per flattened position row * NCOL + col. */
  const CELLS: int := NROW * NCOL

  /** Number of devices tested together in one test set, and the number of test sets drawn. */
  const SET_WIDTH: int := 32
  const TEST_SETS: int := 15

  /** The value that marks a failed or missing measurement. */
  const SENTINEL: real := -999.0
  const SENTINEL_INT: int := -999

  /** Half-width of the accepted breakdown-voltage band around the average (50 mV). */
  const OUTLIER_RANGE: real := 0.05
}
