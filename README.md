# Pivot Point Action Plan — core arithmetic

This project models the computing part of the Streamlit "Pivot Point Action
Plan" page (`pivot_app.py`). It covers three things:

- `calc_levels` turns one day's High, Low and Close into the nine classical
  floor-trader levels: resistances R1–R3, the Central Pivot Range boundaries
  UB / CP / LB, and supports S1–S3. Each level comes with its formula label.
- `calc_cpr_range` expresses the width of the Central Pivot Range as two
  percentages of CP.
- The page's guard runs the analysis only when High, Low and Close are all
  non-zero. It then reads CP, LB and UB back out of the level table by key and
  computes the two widths.

Prices are exact `real`s. The dictionary `calc_levels` returns is modelled as
a map from an enumeration of its nine keys (`LevelKey`, shown under
`KeyName`) to a `Level(formula, price)`. `Keys` gives the order in which the
dictionary lists them. What a run of the page shows after the inputs is an
`Outcome`:

- `Prompt` — the "enter valid values" message;
- `Report` — the level table and the two CPR widths;
- `ZeroDivision` — the level table, which the page has already shown, and
  then a division by a CP of 0 that has no real value. This needs
  H + L + C = 0 with all three non-zero, so a negative input. The manual
  inputs are never negative, so only fetched values can reach it.

For H = 200, L = 100, C = 150 the code gives R1 + (H - L) = 300, which is R3,
not R2 (250), and S3 = 0 (`PivotProperties.ExampleQuote`).

`PivotProperties.RecoverQuote` has no counterpart in the source. It is a
reference inverse that shows the level table determines the quote it was
computed from.

## Model

| member | source | states |
|---|---|---|
| `PivotApp.KeyName` | pivot_app.py:18-26 | the nine dictionary keys, verbatim |
| `PivotApp.FormulaLabel` | pivot_app.py:18-26 | the nine formula strings, verbatim, each under its own key |
| `PivotApp.Price` | pivot_app.py:71-73 | the by-key lookup `levels[key][1]` of a level's price |
| `PivotApp.KeyNamesDistinct` | pivot_app.py:18-26 | the nine dictionary keys are nine different strings, so no entry of the dictionary overwrites another |
| `PivotApp.KeysListEachKeyOnce` | pivot_app.py:17-27 | the dictionary's insertion order lists every level exactly once |
| `PivotApp.EveryKeyLabelled` | pivot_app.py:17-27 | a table holding each of the nine keys under its own formula label holds every key so labelled |
| `PivotApp.CalcLevels` | pivot_app.py:12-27 | the returned table has all nine keys, each with the formula label the source gives it |
| `PivotApp.CalcLevelsHoldsKeys` | pivot_app.py:17-27 | the table holds exactly the keys of the dictionary literal, in the list of its insertion order |
| `PivotApp.CalcLevelsSize` | pivot_app.py:17-27 | the table has nine entries, one per listed key |
| `PivotApp.CalcCprRange` | pivot_app.py:29-30 | the first width times CP is 100 (UB - CP) and the second is 100 (CP - LB), i.e. both are percentages of CP; CP must be non-zero |
| `PivotApp.CprRangeClosedForm` | pivot_app.py:13-15 | on the pivot and boundaries of a quote both CPR widths equal 50 (2C - H - L) / (H + L + C) |
| `PivotApp.Analyse` | pivot_app.py:66-74 | the page prompts exactly when one of H, L, C is 0; it shows the level table of the quote and then divides by a zero CP exactly when all are non-zero but H + L + C is 0; otherwise it reports the level table of the quote and two equal CPR widths, 50 (2C - H - L) / (H + L + C) |
| `PivotProperties.LayoutIndependentOfQuote` | pivot_app.py:17-27 | every quote yields the same keys with the same formula labels |
| `PivotProperties.PricesFollowFormulaLabels` | pivot_app.py:13-26 | each price satisfies the formula printed beside it, e.g. R3 = R1 + (H - L), S3 = S1 - (H - L), UB = (CP - LB) + CP |
| `PivotProperties.BoundariesSymmetric` | pivot_app.py:13-15 | UB and LB sit symmetrically about CP, CP lies between them, and UB >= LB exactly when 2C >= H + L |
| `PivotProperties.LadderGaps` | pivot_app.py:18-26 | consecutive levels R3, R2, R1, CP, S1, S2, S3 are alternately CP - L and H - CP apart; R2 and S2 mirror each other about CP |
| `PivotProperties.LadderOrderedIff` | pivot_app.py:18-26 | S3 <= S2 <= S1 <= CP <= R1 <= R2 <= R3 holds exactly when L <= CP <= H |
| `PivotProperties.ConsistentQuoteOrdered` | pivot_app.py:13-26 | for L <= C <= H the ladder is in order and both CPR boundaries lie between S1 and R1 |
| `PivotProperties.FlatDay` | pivot_app.py:12-27 | when H = L = C = x every level is x |
| `PivotProperties.FlatDayWidths` | pivot_app.py:66-74 | when H = L = C = x with x non-zero the page reports both CPR widths as 0 |
| `PivotProperties.ExampleQuote` | pivot_app.py:12-30 | for H = 200, L = 100, C = 150 the levels are 300, 250, 200, 150, 150, 150, 100, 50, 0, R1 + (H - L) differs from R2, and both CPR widths are 0 |
| `PivotProperties.ExampleCprRanges` | pivot_app.py:29-30 | a collapsed band has widths (0, 0); CP 100 with LB 90 and UB 110 has widths (10, 10) |
| `PivotProperties.CprWidthsEqualIff` | pivot_app.py:29-30 | the two widths agree exactly when UB - CP = CP - LB; for positive CP each width is non-negative exactly when its boundary lies on its side of CP |
| `PivotProperties.RecoverQuoteInverts` | pivot_app.py:12-27 | High, Low and Close are read back exactly from the level table (R2, CP and LB) |
| `PivotProperties.CalcLevelsInjective` | pivot_app.py:12-27 | different quotes always give different level tables |
| `PivotProperties.CprWidthBounds` | pivot_app.py:13-15 | for positive H, L, C the CPR width lies strictly between -50% and 100%, and strictly between -50% and 50% when L <= C <= H; it is non-negative exactly when 2C >= H + L |
| `PivotProperties.ManualInputsSafe` | pivot_app.py:38-40 | on the non-negative manual inputs the page never divides by zero, reports exactly when all three inputs are positive, and then shows a width strictly between -50% and 100% |
| `PivotProperties.ConsistentQuoteWidths` | pivot_app.py:66-74 | for 0 < L <= C <= H the page reports, with both widths strictly between -50% and 50% and non-negative exactly when 2C >= H + L |

## Left out

- The Streamlit page itself is not modelled: title, mode radio button, number inputs, `st.table`, metrics, captions and info/error messages (lines 1-10, 33-40, 68-69, 76-81). The manual inputs appear only as the precondition `h, l, c >= 0` of `PivotProperties.ManualInputsSafe`.
- The NIFTY 50 auto-fetch through yfinance, its bare `except` and `st.stop()` (lines 42-63) are network I/O. In the model the quote is a parameter.
- The timestamp from `datetime.now()` (line 58) is a clock read.
- The `:.2f` formatting of prices and percentages (lines 53-55, 69, 78-79) is not modelled.
- IEEE-754 doubles are modelled as exact reals: no rounding, no overflow, no NaN or infinities. In particular, a NaN from the fetch would be truthy and pass the guard, and that case is not modelled.
- The guard `h and l and c` is modelled as "all three are non-zero", its meaning for floats. `None` (the initial value at line 35) never reaches it, because every path either sets all three or stops.
- The dictionary's string keys are the enumeration `LevelKey` plus `KeyName`. The order in which `st.table` shows the levels (as columns) is the constant `Keys`, not a property of the map.
- Analyse: on a zero CP the model only records that the division has no real value (`ZeroDivision`). It does not model what the page then shows. For Python floats the division raises `ZeroDivisionError`, and the page does not catch it. Fetched values are `numpy.float64`, for which the division yields an infinity or NaN with a warning, and the page shows that as a percentage.
