/**
 * The settings the three screening scripts share: each script sets the same
 * risk aversion, keeps the same number of top rows, and gives up with a
 * ValueError carrying its own message when no row survives the filters.
 */
module ScreenConfig {
  /** `RISK_AVERSION_LAMBDA`: the weight of volatility against sharpe. */
  const RISK_AVERSION_LAMBDA := 1.0

  /** `df_sorted.head(10)`: the number of rows each screen keeps. */
  const TOP_N: nat := 10

  /** The ValueError a screen raises when it has nothing to rank. */
  datatype ScreenError = NoCandidates(message: string)
}
