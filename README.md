# Smart bucket monitor: level arithmetic and echo timing

A Dafny model of the two pieces of real logic in the bucket water-level monitor:

- **Level** (`level.dfy`, app.py): the dashboard turns the newest distance
  reading into a water height, a fill percentage, a space-remaining figure
  and one of three alerts: overflow, high level or normal. It also turns
  every reading of the ascending history into a fill-percentage point for
  the chart. Bucket height `H > 0` and sensor offset `O >= 0` are parameters
  (`Geometry`). The dashboard's own constants are 30/5 and the sensor
  script's are 10/5; `GeometriesDisagree` shows one consequence of the
  mismatch. All arithmetic is exact `real` arithmetic.
- **Echo** (`echo.dfy`, main.py `get_distance`): the ultrasonic measurement
  runs over an abstract trace instead of the GPIO pin and the clock.
  `echo` lists the successive echo-pin reads and `clock` lists the
  successive clock reads. Each read consumes the next entry of its own
  list. `GetDistance` has the source's two polling loops. It is proved equal
  to the specification function `Measure`, and the lemmas state what
  `Measure` does: the timing formula, the 0.0 timeout sentinel, the one
  fixed deadline and the range bound.

The fill formula is not clamped (app.py:43-44): a distance beyond `H + O`
gives a negative water height and a negative percentage (`FillUnclamped`).

Both `start_time` and `stop_time` start out as clock reads taken before
either wait: `clock[0]` and `clock[1]` in the trace. The 1715 cm range bound
(0.1 s × 34300 / 2) needs a non-decreasing clock. It also needs the second
initial clock read `clock[1]` to fall inside the 0.1 s window in one case:
when the echo is already high and falls at once. Neither loop body then
runs, and both initial values reach the formula without any check against
the deadline (`LateSecondReadEscapesDeadline`). For the same reason
the result can be negative (`NegativeDistancePossible`), so the model claims
no lower bound.

## Model

| member | source | states |
|---|---|---|
| Level.Classify | app.py:49-59 | every fill percentage gets exactly one alert: overflow iff >= 100, high iff 90 <= p < 100, normal iff < 90 |
| Level.SpaceRemaining | app.py:65 | water height plus space remaining is exactly the bucket height, and the space remaining is the distance minus the sensor offset |
| Level.LatestStatus | app.py:37-65 | an empty table gives no status; otherwise the alert matches the fill percentage, level plus space equals H, and overflow holds iff the newest distance is at most the offset |
| Level.StatusUsesLastRowOnly | app.py:37-39 | the status depends only on the last row of the ascending table, whatever the earlier rows are |
| Level.WaterHeight | app.py:43 | water height plus the measured distance is the full depth H + O below the sensor |
| Level.FillOf | app.py:44 | the fill percentage times H is the water height times 100 |
| Level.FillPct | app.py:43-44 | the fill percentage of a reading is 100 - (d - O) * 100 / H: 100 at the rim, an affine function of the distance |
| Level.StatusOf | app.py:43-65 | the status of one reading: its alert is the classification of its fill, level plus space equals H, and overflow holds iff the distance is at most the offset |
| Level.History | app.py:71-77 | the charted series is as long as the table and equals the headline fill formula row by row |
| Level.FillUnclamped | app.py:43-44 | the fill is 100 at the rim and 0 at depth H + O; beyond that, water height and fill are negative (no clamping) |
| Level.OverflowIffAtRim | app.py:43-50 | for H > 0, overflow is reported iff the distance is at most the sensor offset |
| Level.HighIffTopTenth | app.py:43-55 | the high-level warning holds iff O < d <= O + 0.1 * H |
| Level.NormalIffBelowTopTenth | app.py:43-59 | the status is normal iff d > O + 0.1 * H |
| Level.SentinelReadsAsOverflow | app.py:43-50 | a 0.0 reading, the sensor's timeout sentinel, is reported as overflow |
| Level.FillStrictlyDecreasing | app.py:43-44 | a larger distance gives a strictly smaller fill percentage |
| Level.SeverityMonotone | app.py:43-59 | alert severity never increases as the distance grows |
| Level.WaterColumn | app.py:71 | the water_height column has one entry per row, each the headline water-height formula of that row's distance |
| Level.FillColumn | app.py:72 | the fill_pct column has one entry per row, each the fill percentage of that row's water height |
| Level.HistoryMatchesHeadline | app.py:38-72 | for a non-empty table, the last point of the charted history is the headline fill percentage |
| Level.GeometriesDisagree | app.py:5-7 | with the sensor script's 10/5 geometry a 15 cm reading is empty, while the dashboard's 30/5 geometry shows it as 200/3 % full |
| Echo.GetDistance | main.py:35-46 | the two polling loops return exactly what the specification Measure gives for the trace: the sentinel, the pulse distance, or nothing when the trace runs out |
| Echo.WaitExpires | main.py:38-44 | a wait that keeps seeing its level and then reads a clock value past the deadline gives up |
| Echo.WaitExits | main.py:38-44 | a wait that sees its level for k rounds within the deadline and then the other level exits holding the k-th clock value, or its initial value when k = 0 |
| Echo.WaitExitValue | main.py:38-44 | on exit a wait holds its initial value if no round ran, otherwise its last clock read, which is within the deadline |
| Echo.EchoDistance | main.py:35-46 | a pulse that rises after j low reads and falls after k high reads within the deadline gives (stop - start) * 34300 / 2; start keeps its initial value clock[0] if j = 0 and stop keeps its initial value clock[1] if k = 0 |
| Echo.TimeoutWhileLow | main.py:35-40 | a clock read past start + 0.1 while the echo is still low gives 0.0 |
| Echo.TimeoutWhileHigh | main.py:35-44 | a clock read past the initial start + 0.1 while the echo is still high gives 0.0; the deadline is not reset when the echo rises |
| Echo.DistanceBounded | main.py:35-46 | with a non-decreasing clock, any result is at most 1715 cm, provided clock[1] lies inside the window whenever the echo reads high and then at once low |
| Echo.LateSecondReadEscapesDeadline | main.py:35-46 | without the condition on clock[1] the bound fails on a non-decreasing clock: echo [high, low] with clock [0, 0.5] gives 8575 cm, above 1715 |
| Echo.WaitWhile | main.py:38-44 | one polling loop: when it exits, it has read the polled level on every echo read but the last, the other level on the last, and one clock value per round |
| Echo.EchoOutcome | main.py:35-44 | of a completed pulse, start is clock[0] or a later clock read inside the deadline, and stop is clock[1] or a later clock read inside the deadline |
| Echo.DistanceOf | main.py:40-46 | a timeout gives the sentinel 0.0; a completed pulse gives half of round-trip time times 34300 cm/s |
| Echo.Measure | main.py:35-46 | a nonzero result always comes from a completed pulse; no result only when the trace runs out |
| Echo.NegativeDistancePossible | main.py:35-46 | even on a non-decreasing clock the result can be negative: echo [low, high, low] with clock [0, 0, 0.05] gives -857.5 cm |
| Echo.DeadlineNotReset | main.py:35-44 | an echo that rises at 0.09 s and is still high at 0.15 s times out, although it has lasted only 0.06 s |

## Left out

- GPIO setup and the trigger pulse (main.py:17-22, 28-33): hardware I/O and timed sleeps. The echo pin and the clock are an input trace instead.
- End of the trace: a real pin and clock never run out. A finite trace can, and `Measure` then gives `None`; this case has no counterpart in the source.
- Database access (app.py:10-28, main.py:24-25, 48-63): `get_connection` opens a connection with no error handling. `fetch_data` reads the table and closes the connection in a `try/finally`, letting errors propagate. `set_mode` writes the interval and swallows every exception. `get_sleep_interval` ends at main.py:63, inside its `try` block. The `ORDER BY timestamp ASC` result of `fetch_data` is the input sequence of distances. Timestamps are not modelled, only their order.
- The adaptive sampling-interval controller and the interruptible sleep loop: main.py stops at line 63, inside `get_sleep_interval`. Their code is not part of this model.
- Streamlit rendering (page setup, error/warning/success boxes, toasts, metrics, the chart, the refresh button): UI with no logic beyond the values modelled here. The one-decimal formatting of the displayed values is not modelled.
- IEEE-754 floating point: all arithmetic is exact `real`. Rounding near the 90 % and 100 % thresholds is not captured.
- Division by a zero bucket height: every Level member that divides by the height (`FillOf` and everything built on it) requires `ValidGeometry` (`H > 0` and `O >= 0`), as both scripts' constants satisfy.
