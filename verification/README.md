# Verified model of simple_sat_ops

simple_sat_ops tracks satellites: it propagates two-line element sets with the SGP4/SDP4 library, predicts
passes and close approaches, fits element sets to measured states, and records passes. This project models
the parts of it whose correctness is hard to see from the code and proves what they promise, over exact
integers and reals.

- **Resonance, ResonanceRuns, ResonanceSums** - the deep-space resonance integrator: a stored point moved in
  720-minute steps by two nested loops, what whole runs of calls leave behind, and the sums behind its rates.
- **Ephemeris, SecularDrift, Propagator, SharedProcess** - what SGP4 and SDP4 compute with no state at all, and
  what its resonant branch means; the same computation with the process-wide flags, static constants and
  caches; several satellites sharing one process, and one satellite tracked call after call.
- **Calendar** - Julian dates, the inverse calendar conversion, the epoch field of element sets.
- **LinearSystems, GaussianElimination, DifferentialCorrection** - the in-place linear solve for any size,
  and the backtracking Newton fit that uses it.
- **Decimal, CardLayout, TleCards** - writing an element set into its fixed columns, the validity check, and
  reading it back.
- **GoldenSection, Conjunction, Passes** - the searches for a closest approach, coarse and refined, and for a
  pass, over an abstract function of time.
- **SyncSearch** - the sliding search for the sync marker against the brute-force one.
- **RecordingGate** - the per-pass recording gate of the main loop.
- **Frames** - the rotations between frames and the orientation vectors.
- **Flags, Basics** - the flag word and small shared notions.

Conventions. Decimal constants are exact rationals; a cast truncates toward zero. The coefficient formulas
of the propagators, the elevation and separation functions and the two residual norms are function-valued
parameters, so every result holds for all of them; each takes exactly the values the code reads. Sines and
cosines enter only through sin^2 + cos^2 = 1, the addition laws and their having a period. The flag bits the
propagators use are fields of one shared object. `dafny verify dfyconfig.toml` checks the whole project.

Results that differ from what the code's own comments say; the model follows the code.

- Stepping the resonance integrator incrementally is not always the same as integrating from epoch: it is,
  for every orbit, exactly when no step back has been made since the epoch
  (`IncrementalAgreesIffNoStepBack`). Both halves hold for the code's own sums over every sine and cosine
  that obey the circle and addition laws and have a period (`TrigRates`, `Trigonometric`); without a step back
  the points agree for any dot terms. `StepBackHappens` is a run, 1440 then 720 minutes, that disagrees. The
  30-minute periodics cache adds its own condition (`TrackingIsFreshIff`).
- Interleaved propagation is free of interference except for a time within 30 minutes of the empty-cache
  mark 1E20 and an epoch whose lunar day is the zero a new process starts with (`Isolated`). Every epoch field
  of the format has a positive lunar day (`LunarDayIsPositive`). Near the mark the report uses the periodics
  of the previous satellite (`StateAt`, `ReportAfter`), so requests at a time are undisturbed exactly when it is
  not near the mark (`UndisturbedIff`).
- The card writer says the library re-reads exactly what it wrote; the mean motion is written in eleven
  columns and read from ten, so it comes back cut to seven decimals (`ShapeMatches` in `ReadBack`).
- The linear solve says it fails on a singular matrix; it does, and it also refuses small nonsingular ones,
  of every size (`SmallMatrixIsRefused`). `Solve` fails exactly on the matrices `Refused` names, a computable
  predicate of the matrix alone.
- The golden-section comment takes the ratio for the golden one. The constant misses it by about 1.2e-16, so a
  reused point drifts; the drift stays below the tolerance for brackets up to 100000 days.
- The bisection assumes its bracket straddles the horizon. Its caller breaks that exactly on a `ShortPass`: a
  pass that is over within the first step after a rise refined to just below the horizon. `IsPass` says the set
  straddles the horizon if and only if there is none, `BlipIsShort` gives one for every time and window, and
  `LongPassesAreNotShort` rules them out for elevations whose passes last half a minute.
- Within 60 seconds of a rise the recorder runs, unless a recording's postroll runs out first (`RecordsWhenDue`,
  `SlippingRiseIsDropped`).
- The recording gate looks only at ticks at which it is enabled, so a satellite seen in between does not put off
  a stop (`MinuteDownIffEnabled`, `DisabledTickIsMissed`).
- The calendar inverse switches to the Julian calendar before 1582 October 15 while the forward formula
  stays Gregorian (`EarlyDatesInvertIff`), and it moves to the next date half a millisecond before midnight
  without resetting the fraction (`CalendarDateInverts`, `EpochTimeInverts`).

## Model

| member | source | states |
|---|---|---|
| Resonance.Integrator.Integrate | sgp4sdp4/sgp4sdp4.c:836-932 | The nested loops terminate for every time, every stored grid time and any leftover loop flags, and leave the point that the loop-free `Advance` names: same step count as the request, on its side of the epoch, less than one step away, with the dot terms and remainder of that point. |
| Resonance.Integrator.Approach | sgp4sdp4/sgp4sdp4.c:863-930 | The inner loop walks out to the last grid point before the time, or makes exactly one step back and asks for the epoch test again. |
| Resonance.Integrator.Orient | sgp4sdp4/sgp4sdp4.c:838-861 | The epoch test restarts exactly when the stored time is zero or on the other side, chooses the outward direction whenever the point is not beyond the time, and does not change where the call will end. |
| Resonance.Integrator.Aim | sgp4sdp4/sgp4sdp4.c:865-882 | A step is due exactly when the time is a whole step away or behind; the restart flag goes up exactly when it is behind. |
| Resonance.Integrator.TakeStep | sgp4sdp4/sgp4sdp4.c:923-928 | The three assignments are one Taylor step of the signed length. |
| ResonanceRuns.StepIsTaylor | sgp4sdp4/sgp4sdp4.c:920-928 | A step, forward or back, is the second-order Taylor expansion of longitude and mean motion over its signed length. |
| ResonanceRuns.WalkIsExact | sgp4sdp4/sgp4sdp4.c:863-930 | Under a uniform acceleration any number of steps in either direction is the exact uniformly accelerated motion. |
| ResonanceRuns.RunIsExact | sgp4sdp4/sgp4sdp4.c:836-932 | And so is the stored point after any run of calls, steps back included. |
| Resonance.BackStep | sgp4sdp4/sgp4sdp4.c:874-882 | A step back comes one grid point closer and does not change where the call ends. |
| ResonanceRuns.AdvanceTime | sgp4sdp4/sgp4sdp4.c:836-932 | The stored time after a call is the grid point of its argument, whatever was stored before. |
| ResonanceRuns.NoStepBack | sgp4sdp4/sgp4sdp4.c:811-932 | After any run of calls without a step back since the epoch, the stored point is plain integration from epoch. |
| ResonanceRuns.StepsBackShow | sgp4sdp4/sgp4sdp4.c:920-928 | On an orbit whose rate of the mean longitude doubles at each step, a run ends at the right time with that rate doubled twice too often for every step back. |
| ResonanceRuns.OneTermDoubles | sgp4sdp4/sgp4sdp4.c:886-918 | For every sine and cosine obeying the circle and addition laws, the code's own sums, one-day and half-day, make such an orbit when one coefficient is nonzero and the first step is a full turn. |
| ResonanceSums.SyncTurns | sgp4sdp4/sgp4sdp4.c:886-892 | Each coefficient of the one-day sums is a harmonic of its own: moving the longitude by h turns its sum and the derivative, taken with factor one, two or three, by that multiple of h. |
| ResonanceSums.BothTurn | sgp4sdp4/sgp4sdp4.c:898-917 | A sum of terms and its derivative turn by h when every angle moves by h. |
| ResonanceSums.HalfDayParts | sgp4sdp4/sgp4sdp4.c:898-917 | The single- and double-longitude parts of the half-day sums are such sums, the derivative over the same angles. |
| ResonanceSums.AnglesMove | sgp4sdp4/sgp4sdp4.c:895-917 | A longitude h further moves the angles of the single part by h and those of the double part by twice h. |
| ResonanceRuns.IncrementalAgreesIffNoStepBack | sgp4sdp4/sgp4sdp4.c:836-943 | For every sine and cosine with their laws and a period, the stored point agrees with integration from scratch on all orbits of the code's own sums if and only if the run made no step back since the epoch; and then for any dot terms whatever. |
| ResonanceRuns.StepBackHappens | sgp4sdp4/sgp4sdp4.c:874-882 | Asking for 720 minutes after 1440 makes one step back, and for every sine and cosine some orbit then disagrees with integration from epoch. |
| ResonanceRuns.OutwardRunsAreFromEpoch | sgp4sdp4/sgp4sdp4.c:836-932 | Times on one side of the epoch, moving away from it, always give the from-scratch point. |
| Ephemeris.ConversionIsNotRepeatable | sgp4sdp4/sgp_in.c:235-243 | Converting elements twice changes nothing only when all converted elements are zero. |
| Ephemeris.ConversionUnits | sgp4sdp4/sgp_in.c:229-243 | A day of converted motion is as many turns as the element had revolutions, likewise its derivatives; each angle in degrees is the same angle in radians; epoch, eccentricity and drag term stay. |
| Ephemeris.KilometreUnits | apps/conjunction.c:209-219 | An earth radius is 6378.135 km and a minute sixty seconds in the reported state. |
| Ephemeris.DayCounts | sgp4sdp4/sgp4sdp4.c:531-532 | Days are counted from 1950 January 0.0 and the lunar cache key from noon of 1900 January 0. |
| Ephemeris.SolarPlusLunar | sgp4sdp4/sgp4sdp4.c:555-681 | Each secular rate is the sum of the two bodies' own, with the node's share taken out of the perigee's. |
| Ephemeris.BodiesCommute | sgp4sdp4/sgp4sdp4.c:637-671 | The order in which the two bodies are summed does not matter. |
| Ephemeris.ReportAtMinutes | apps/conjunction.c:209-219 | A report t / 1440 days after the epoch is the state t minutes after it. |
| Ephemeris.LowPerigeeIsSimple | sgp4sdp4/sgp4sdp4.c:129-139 | With a low perigee the higher drag constants have no influence. |
| SecularDrift.ResonantAnomaly | sgp4sdp4/sgp4sdp4.c:934-943 | In either band, for every time and after any run of calls, under a uniform acceleration c the reported mean anomaly is the secular one from the rates of orbit, sun and moon plus c t^2 / 2 and the mean motion is the element's plus c t; so without resonance terms the resonant branch returns the plain secular values. |
| SecularDrift.ResonateIs | sgp4sdp4/sgp4sdp4.c:934-943 | Mean anomaly plus node and perigee in the one-day band, or plus twice the node in the half-day band, less the Earth's angle, is the interpolated longitude. |
| SecularDrift.GridPointsJoin | sgp4sdp4/sgp4sdp4.c:920-943 | Interpolating over a whole step from one grid point gives the state from the next: nothing jumps at a grid time. |
| Ephemeris.LunarDayIsPositive | sgp4sdp4/sgp_time.c:367-387 | Every epoch field from 0 to 99999 gives a positive key of the lunar cache. |
| Propagator.NearPropagator.Sgp4 | sgp4sdp4/sgp4sdp4.c:45-158 | With constants initialised once and drag constants only when the perigee is high, the result is the stateless near-earth state. |
| Propagator.DeepPropagator.LoadGeometry | sgp4sdp4/sgp4sdp4.c:519-553 | The day cache holds the geometry of the requested day after the call, hit or miss. |
| Propagator.DeepPropagator.SumBodies | sgp4sdp4/sgp4sdp4.c:555-671 | With the lunar flag down the endless loop makes exactly two passes and the secular rates are sun plus moon; with it left up, one pass on top of the old sums. |
| Propagator.DeepPropagator.SetResonance | sgp4sdp4/sgp4sdp4.c:673-819 | The resonance flags are up exactly for the two bands, synchronous implies resonant, and the integrator is reset to the orbit of the current elements; otherwise it is untouched. |
| Propagator.DeepPropagator.DeepInit | sgp4sdp4/sgp4sdp4.c:518-819 | Initialisation rewrites everything that is read later from the current elements, whatever the previous satellite left. |
| Propagator.DeepPropagator.Perturb | sgp4sdp4/sgp4sdp4.c:946-983 | Afterwards the cached time is less than 30 minutes from the request, and periodics that belonged to the cached time still do; the cache is refilled only when it is 30 minutes or more away. |
| Propagator.DeepPropagator.Advance | sgp4sdp4/sgp4sdp4.c:821-943 | The secular entry equals the stateless drift with the resonance interpolated from the advanced point. |
| Propagator.DeepPropagator.Sdp4 | sgp4sdp4/sgp4sdp4.c:288-480 | Every call keeps the flag and cache invariants and returns the stateless deep-space state of the advanced integrator point and the periodics in use. |
| Propagator.SatObject.Setup | apps/conjunction.c:186-193 | The elements are converted once from the loaded ones and the deep-space verdict and epoch are noted. |
| Propagator.SatObject.Prepare | apps/conjunction.c:199-204 | All initialised bits are dropped and the once-converted elements restored, keeping the library invariants. |
| Propagator.SatObject.StateAt | apps/conjunction.c:209-219 | From any library state, the report is that of a fresh process, outside the two cache marks; near the empty-cache mark it is the report with the previous satellite's periodics. |
| SharedProcess.Interleave | apps/tle_compare.c:355-363 | In any interleaving of requests over any satellites, each set up once, every report is that of a process propagating that satellite alone. |
| SharedProcess.EvaluateAtEpoch | apps/tle_from_state.c:297-318 | The fit's evaluation is a function of the six elements alone, whatever was propagated before; none for a deep-space period. |
| SharedProcess.EpochTleFields | apps/tle_from_state.c:297-318 | Each of the six elements is in its own field, the drag terms are off and a circular orbit is nudged off zero. |
| SharedProcess.Update | src/orbit/prediction.c:190-199 | One tracking update without a reset extends the run of times by one and returns the tracked state of that run. |
| SharedProcess.Track | apps/tle_compare.c:232-236 | A prepared satellite tracked at any times returns at each the state of the run so far. |
| SharedProcess.CacheIsRecent | sgp4sdp4/sgp4sdp4.c:949-951 | The periodics in use after any run are those of a time less than 30 minutes from the request. |
| SharedProcess.TrackingIsFreshIff | sgp4sdp4/sgp4sdp4.c:836-978 | Tracking gives a fresh process's state for all satellites and formulas, even over one given sine and cosine, if and only if the run made no step back and the periodics were refilled at the request. |
| SharedProcess.UndisturbedIff | sgp4sdp4/sgp4sdp4.c:949-951 | Requests at a time report the fresh state for all formulas, whatever other satellite filled the cache before, if and only if the time is not within 30 minutes of the empty-cache mark. |
| SharedProcess.ReportAfter | apps/conjunction.c:222-230 | Of two requests in a row, the second reports the state computed with the first satellite's periodics in the cache, so a fresh one away from the mark. |
| Calendar.DoY | sgp4sdp4/sgp_time.c:74-89 | The table loop with its leap correction is the count of days month by month. |
| Calendar.YearLength | sgp4sdp4/sgp_time.c:337-355 | Consecutive years are 365 or 366 days apart, by the leap rule. |
| Calendar.DayNumberAgrees | apps/next_in_queue.c:659-663 | For every year from 1, every month and any day, the day-number formula at midnight is the library's Julian date. |
| Calendar.CenturyFromDay | sgp4sdp4/sgp_time.c:125-126 | The division by 36524.25 finds the March-based century of every date, with no bound on the year. |
| Calendar.YearFromCount | sgp4sdp4/sgp_time.c:128-129 | The division by 365.25 finds the March-based year. |
| Calendar.MonthFromCount | sgp4sdp4/sgp_time.c:130-131 | The division by 30.6001 finds the March-based month. |
| Calendar.CalendarDateInverts | sgp4sdp4/sgp_time.c:106-147 | From 1582 October 15 on, unbounded in the year, the calendar date of a moment is the date it was made from, and the next date in the last half millisecond of the day. |
| Calendar.EarlyDatesInvertIff | sgp4sdp4/sgp_time.c:121-122 | For every date before that day, the last one included, the date comes back if and only if the century lag of the two calendars equals the roll-over. |
| Calendar.SwitchDay | sgp4sdp4/sgp_time.c:112-122 | Rolling over from 1582 October 14 lands on the first Gregorian day, with a lag of ten days. |
| Calendar.EpochFieldReadsBack | apps/tle_from_state.c:849-853 | For 1957 to 2056 the Julian date of the written field is the one computed directly. |
| Calendar.EpochTimeInverts | sgp4sdp4/sgp_time.c:53-66 | Converting back gives the field of the same date, or of the next date with the old fraction in the last half millisecond. |
| Calendar.RolledFieldIsOneDayLate | sgp4sdp4/sgp_time.c:112-119 | Within a year the rolled field is exactly one day too large. |
| GaussianElimination.FindPivot | apps/tle_from_state.c:352-356 | The pivot is the largest entry of the column from the diagonal down, the first on ties. |
| GaussianElimination.SwapEquations | apps/tle_from_state.c:358-361 | Two equations are exchanged, both sides, in place. |
| GaussianElimination.EliminateRow | apps/tle_from_state.c:362-366 | The entry under the pivot becomes zero with a multiplier of size at most one, and the solution set stays. |
| GaussianElimination.EliminateColumn | apps/tle_from_state.c:362-366 | A column is cleared below its pivot with the same solutions and the rows above untouched. |
| GaussianElimination.BackSubstitute | apps/tle_from_state.c:368-372 | A triangular system with nonzero diagonal is solved. |
| GaussianElimination.Eliminate | apps/tle_from_state.c:350-367 | Forward elimination either makes an equivalent triangular system with nonzero diagonal, every column having had a pivot, or stops because the matrix is one `Refused` names. |
| GaussianElimination.PivotAndClear | apps/tle_from_state.c:358-366 | One column: the matrix becomes the pivoted and cleared one, with the same solutions. |
| GaussianElimination.Solve | apps/tle_from_state.c:349-374 | For any size: zero is returned only with the one solution of the original system, so never for a singular matrix; minus one if and only if elimination of the matrix meets a column whose candidate pivots are all below the threshold (`Refused`, on the input matrix). |
| GaussianElimination.SmallMatrixIsRefused | apps/tle_from_state.c:357 | At every size, a multiple of the identity below the threshold is refused although it is not singular. |
| GaussianElimination.SingularIsRefused | apps/tle_from_state.c:347-348 | Every singular matrix, of any size, is refused. |
| LinearSystems.SwapKeepsSolutions | apps/tle_from_state.c:358-361 | Exchanging two equations changes no solution. |
| LinearSystems.ReduceKeepsSolutions | apps/tle_from_state.c:362-366 | Subtracting a multiple of one equation from another changes no solution. |
| LinearSystems.TriangularUnique | apps/tle_from_state.c:368-372 | A triangular system with nonzero diagonal has at most one solution. |
| LinearSystems.UniqueMeansNonsingular | apps/tle_from_state.c:347-348 | A system with exactly one solution has a nonsingular matrix. |
| DifferentialCorrection.NormalizeIdempotent | apps/tle_from_state.c:376-385 | Normalised elements are in range and a second normalisation changes nothing. |
| DifferentialCorrection.WrapKeepsAngle | apps/tle_from_state.c:119-124 | Wrapping changes an angle by a whole number of turns. |
| DifferentialCorrection.Jacobian | apps/tle_from_state.c:408-420 | The matrix of central differences, with the elements put back exactly; failure exactly when a nudged set cannot be evaluated. |
| DifferentialCorrection.NewtonStep | apps/tle_from_state.c:422-425 | The step solves J delta = -g, and only for a nonsingular J; there is none exactly when the elimination refuses J. |
| DifferentialCorrection.LineSearch | apps/tle_from_state.c:427-441 | The longest of twelve halvings that strictly lowers the position residual, or proof that none does. |
| DifferentialCorrection.LambdaHalves | apps/tle_from_state.c:440 | After k halvings the step length doubled k times is one. |
| DifferentialCorrection.Round | apps/tle_from_state.c:407-442 | One iteration: the next iterate is the longest useful halving of the Newton step, normalised; without one the elements stall; failure exactly when a nudged set cannot be evaluated. |
| DifferentialCorrection.Fit | apps/tle_from_state.c:392-461 | Each accepted iterate is the longest useful halving of the Newton step at the one before, in range, with strictly falling position residuals, and only the last can be within tolerance; the returned elements are the last, the reported norms are theirs, and convergence is reported exactly when both are below tolerance. Without it all iterations were used, the elimination refused the Jacobian or no halving helps; failure means a set that cannot be evaluated. |
| DifferentialCorrection.JacobianIs | apps/tle_from_state.c:408-420 | Central differences of a linear residual M (x - z) are M itself. |
| DifferentialCorrection.FullStepLands | apps/tle_from_state.c:422-435 | For a linear residual whose solution is in range, the full Newton step lands on the solution from anywhere. |
| DifferentialCorrection.FitLinear | apps/tle_from_state.c:392-461 | A linear problem whose matrix the elimination does not refuse is fitted: unless the start is within tolerance, the result is the solution, reached in one iteration and reported as converged. |
| TleCards.Checksum | apps/tle_from_state.c:467-476 | The writer's loop is the digit sum of 68 columns modulo ten. |
| TleCards.CheckLine | sgp4sdp4/sgp_in.c:18-37 | The reader's loop decides whether column 69 is that sum. |
| CardLayout.Place | apps/tle_from_state.c:480-483 | Exactly the named columns are overwritten. |
| CardLayout.FieldAt | apps/tle_from_state.c:484-487 | Every field of a line is found at its own column. |
| TleCards.FormatTle | apps/tle_from_state.c:488-526 | Both cards hold their fields, cut to their columns, spaces elsewhere, and their check digit. |
| TleCards.ChecksumsAgree | sgp4sdp4/sgp_in.c:49-50 | Both check digits agree for any values and any designator text. |
| TleCards.AcceptedIff | sgp4sdp4/sgp_in.c:46-70 | For all fitting values and any designator, the cards pass the validity check if and only if the mean motion needs no third digit before its point. |
| TleCards.DigitErrorIsCaught | sgp4sdp4/sgp_in.c:18-50 | Any one digit of accepted cards changed to another digit is rejected, check digits included. |
| TleCards.ShapeErrorIsCaught | sgp4sdp4/sgp_in.c:51-67 | Any other character in a column that must hold a line number, a decimal point or the ephemeris type, or in the catalogue number of one card only, is rejected. |
| TleCards.TrimDesignator | sgp4sdp4/sgp_in.c:98-99 | The trimming loop removes trailing white space but keeps the first character. |
| TleCards.ReadBack | sgp4sdp4/sgp_in.c:79-171 | Reading back gives the three counters exactly, the designator trimmed, epoch and angles to half a unit of the last decimal, eccentricity to half of 1e-7, and the mean motion cut to seven decimals. |
| TleCards.DragTermsRead | sgp4sdp4/sgp_in.c:105-126 | On any cards the three drag terms are read from their own columns with sign and exponent: a signed eight-decimal fraction, and twice five digits after an implied point times a signed power of ten. |
| TleCards.Emit | apps/tle_from_state.c:909-922 | What is emitted passed the reader's own check, which fails only for a three-digit mean motion, and reads back. |
| Decimal.AtofFixedField | apps/tle_from_state.c:515-523 | Reading a fixed-point field gives the rounded value. |
| Decimal.AtofZeroField | apps/tle_from_state.c:504 | Reading a zero-filled field gives the rounded value. |
| Decimal.AtofClipped | sgp4sdp4/sgp_in.c:160-163 | A field read one column short is the number truncated by one decimal. |
| Decimal.AtofScientific | sgp4sdp4/sgp_in.c:110-126 | A sign or blank, a point, digits and a signed exponent digit read as the number they stand for. |
| Decimal.PointColumn | apps/tle_from_state.c:523 | The point is in its column exactly when the whole part has room; otherwise a digit is there. |
| GoldenSection.StepKeepsGolden | apps/conjunction.c:254-262 | A step to either side keeps the inner points golden up to a drift that grows by at most 2e-16 of the width. |
| GoldenSection.ExactRatio | apps/conjunction.c:237-239 | With g*g = 1 - g the kept point is exactly the other golden point and the width shrinks by exactly g. |
| GoldenSection.RefineTca | apps/conjunction.c:235-264 | For any separation and any bracket up to 100000 days the search ends on its tolerance in at most 98 of 200 steps, inside the bracket; for a strictly unimodal one it is within half the tolerance of the minimum. |
| Conjunction.ClosestApproach | apps/conjunction.c:664-706 | Every dip of the samples scanned is refined inside its own three samples; the events are the refined times within the threshold, the answer is the one with the smallest separation, the first on ties, or without a dip the lowest sample; looking for the first match only, it is the event reported. Over a window with a single minimum the answer is within half the tolerance of it exactly when the window falls over its first step and rises over its last, and otherwise less than a step away. |
| Conjunction.Scan | apps/conjunction.c:681-701 | The scan goes to the end of the window or to a first event; its tally is that of one good refinement for every dip, and its coarse minimum that of every sample. |
| Conjunction.SumsNext | apps/conjunction.c:688-696 | Noting a refined dip keeps the tally that of the record: smallest separation, first on ties, and the times within the threshold in order. |
| Conjunction.DipIffBracketed | apps/conjunction.c:685-686 | With a single minimum, three samples dip if and only if the window falls over its first step and rises over its last. |
| Conjunction.DipHoldsMinimum | apps/conjunction.c:686-687 | The three samples of a dip enclose the minimum, so the refinement gets a bracket with a single minimum. |
| Conjunction.InsideIsBracketed | apps/conjunction.c:685-686 | A minimum at least one step inside the samples is always bracketed. |
| Conjunction.LowestIsNear | apps/conjunction.c:683 | The lowest sample of the window is less than one step from a single minimum. |
| Passes.RefineCross | apps/tle_compare.c:240-250 | The midpoint of the bracket the halvings end with: down at its start exactly when the given one is, straddling zero with the same signs if the given one did, at most half a second wide for a 30-second one. |
| Passes.FindRise | apps/tle_compare.c:266-273 | The backward scan ends at a bracketed rise or at the 40-minute cap, and the satellite was up at every sample after it. |
| Passes.FindSet | apps/tle_compare.c:275-277 | The forward scan saw the satellite up at every sample before the set and ends at the window or at a refined crossing, which straddles the horizon if and only if the satellite was not lost at once. |
| Passes.FindNextRise | apps/tle_compare.c:279-298 | A rise is found exactly when some sample of the window is not below the horizon; it is the first one, with every sample before it down, bracketed to half a second. |
| Passes.FindPass | apps/tle_compare.c:255-313 | No pass exactly when every sample is below the horizon; otherwise the current or first pass, rise before set, around now when already up, down at every sample before a future rise and up at every sample until the set, with a bracketed rise, the peak over 5-second samples, and a set that straddles the horizon if and only if the pass is not a short one. |
| Passes.BlipIsShort | apps/tle_compare.c:279-290 | A satellite up for 0.4 seconds around the first sample has its rise refined to a time before it and is a short pass, for every time and every window of a minute or more. |
| Passes.LongPassesAreNotShort | apps/tle_compare.c:238-239 | If the satellite is up 30 seconds after every half-second rise, no time and window have a short pass, so the bisection assumption holds. |
| SyncSearch.SlideWindow | scripts/scan_iq.py:53-54 | Shifting a bit in and masking to 32 bits is the window one place on. |
| SyncSearch.HammingIsMismatches | unit_tests/asm_search_selftest.c:62-69 | The number of set bits of the exclusive-or is the number of differing places. |
| SyncSearch.BestIsUnique | unit_tests/asm_search_selftest.c:70-74 | There is one best match: smallest distance within the threshold, earliest on ties. |
| SyncSearch.AsmFindBest | src/dsp/asm_search.c:23-52 | The sliding search with its early stop returns the best match from any start, and none exactly when no offset is within the threshold. |
| SyncSearch.FindAsm | scripts/scan_iq.py:41-59 | The same for the sync marker from the first bit. |
| SyncSearch.FindBest | unit_tests/asm_search_selftest.c:75-94 | The brute-force search returns the best match. |
| SyncSearch.SearchesAgree | unit_tests/asm_search_selftest.c:70-94 | Both searches return the same match on every bit string, threshold and start. |
| RecordingGate.Gate.OnTick | apps/main.c:400-428 | The gate's state is a function of the ticks so far and each request is the one the step function names. |
| RecordingGate.StopOnlyAfterAMinuteDown | apps/main.c:419-427 | A stop is requested only when every tick of the last 60 seconds at which the gate was enabled found the satellite down, and never within 60 seconds of a start. |
| RecordingGate.MinuteDownIffEnabled | apps/main.c:400-427 | A stop guarantees that every tick of the last 60 seconds found the satellite down, whatever the elevation at ticks the gate was disabled at, if and only if it was enabled at every tick of that minute. |
| RecordingGate.DisabledTickIsMissed | apps/main.c:400 | A satellite seen only while the gate is disabled does not cancel a pending close. |
| RecordingGate.NeverStoppedBeforeTheRise | apps/main.c:404-409 | A recording opened by the preroll is not stopped before the rise predicted when it opened. |
| RecordingGate.RecordsWhenDue | apps/main.c:404-427 | Every enabled tick with the satellite visible or within 60 seconds of its rise leaves the recorder running, unless exactly a recording's postroll runs out before the satellite is up. |
| RecordingGate.VisibleIsRecorded | apps/main.c:404-420 | With a recorder that follows its requests, a satellite visible at an enabled tick is being recorded at the next. |
| RecordingGate.StaysOff | apps/main.c:403-407 | Down, with the rise more than 60 seconds away, an idle recorder stays off. |
| RecordingGate.SlippingRiseIsDropped | apps/main.c:421-427 | A rise predicted ever later is given up 60 seconds after the preroll began. |
| RecordingGate.StopComes | apps/main.c:422-427 | Once the satellite has been down for 60 seconds of recording, a stop has been requested. |
| RecordingGate.NegativeClockForgets | apps/main.c:422-424 | With a negative clock a close due at exactly zero is forgotten, so the nonnegative clock is needed. |
| Frames.TopocentricInverts | sgp4sdp4/sgp_obs.c:126-137 | The topocentric rotation and the one used for right ascension undo each other in both orders. |
| Frames.TopocentricKeepsLength | sgp4sdp4/sgp_obs.c:126-141 | The topocentric vector has the range's length, so its zenith part never exceeds it, and the rotation used for right ascension keeps length too. |
| Frames.EcefKeepsLength | apps/tle_from_state.c:212-222 | The Earth-fixed rotation keeps distance and gives a point at rest the station's velocity. |
| Frames.StationAxes | sgp4sdp4/sgp_obs.c:126-137 | The station's own up, east and south, turned into the inertial frame, are zenith, east and south of its sky. |
| Frames.StationSees | apps/tle_from_state.c:212-222 | Turning an Earth-fixed vector by the sidereal angle and looking at it from the station leaves only the tilt of the latitude. |
| Frames.EcefVelocityAdds | apps/tle_from_state.c:212-222 | The velocity of a moving point is its own, turned, plus that of the ground under it. |
| Frames.OrientationOrthonormal | sgp4sdp4/sgp4sdp4.c:231-245 | The orientation vectors are orthonormal. |
| Frames.OrientationNormal | sgp4sdp4/sgp4sdp4.c:231-245 | Their cross product is the orbit normal, leaning from the pole by the inclination, and at the node the first lies on the line of nodes. |
| Frames.StateGeometry | sgp4sdp4/sgp4sdp4.c:247-253 | Distance, speed and radial rate of the state are those computed in the orbit plane. |
| Frames.AngularMomentum | sgp4sdp4/sgp4sdp4.c:247-253 | Position times velocity is along the orbit normal, the distance times the transverse rate. |

## Left out

- Coefficient formulas of SGP4 and SDP4, Kepler's equation, sines and roots: uninterpreted functions of the values they read.
- Floating-point rounding: arithmetic is exact.
- Passes.FindPass: elevation is a function of time, while the code's goes through a propagator that is not reset between samples; `TrackingIsFreshIff` says when that is a function of time for a deep-space satellite.
- The six flag bits the propagators never read, and the integer encoding of the word: each bit used is a field.
- Propagator.SatObject.StateAt: says nothing exact for an epoch whose lunar day is zero; no epoch field of the format has one.
- The ephemeris backed by an orbit file in `src/orbit/prediction.c`, and the observation angles computed after each update: only the propagation is modelled.
- The starting guess of the fit from position and velocity, its fallback and its quality gate: only the correction loop is modelled.
- DifferentialCorrection.Fit: the residual is a parameter; that the propagator behind it is a function of the elements is `EvaluateAtEpoch`.
- Reading hexadecimal, infinities and not-a-number text with atof: cards hold decimal text only.
- Negative values on cards: the tool normalises angles and bounds the counters, so fitting values are nonnegative.
- GoldenSection.RefineTca: nothing is stated for brackets above 100000 days, where the drift could reach the tolerance.
- Conjunction.ClosestApproach: what a single minimum gives assumes separations below the starting value 1e300 and steps of at most 50000 days; with several minima how near a refined time is to its own minimum is not stated.
- The collision probability, pass tables and plots: reporting around the modelled searches.
- SyncSearch.HammingIsMismatches: the two population counts, by text and by clearing the lowest bit, are one function.
- Pass separations and along-track offsets between satellites: sampled expressions with no further structure.
- Framing, error correction, telemetry, radio, rotator, user interface, command line and file handling: other subsystems.
