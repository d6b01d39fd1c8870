# Matrix utilities, link-segment model and float text check

This project models three parts of a neural simulator:

- **`MU`**, the matrix utilities: dimension-checked products, sums and differences of `float` vectors and matrices, `isMatrix`, `clone`, `copy` with a stride, the `shape` reflow of a ragged matrix, `transpose`, `diag`, `I`, `zero`, `uniform`, and the two growable buffers `VectorExpander` and `MatrixExpander`.
- **`LinkSegmentModelImpl`**, a link-segment model. Its generalized coordinates, held by a dynamical system, are driven by the torques of skeletal muscles. It keeps a registry of joints and muscle slots, runs with fixed Euler steps and a shortened last step, resets the coordinates to zero, and reports state histories by name.
- **`FloatPanel.checkValue`**, the check a float input panel applies to its text: not set, invalid format, out of range, or no error.

Modules and files:

- `common.dfy` (`Common`): `Option` and `Result`.
- `mu.dfy` (`MatrixUtil`): specification functions and the routines.
  - Each routine allocates its result rows and fills them with the source's index loops.
  - Each is proved against a specification function.
  - The expanders are classes over arrays.
- `matrix_laws.dfy` (`MatrixLaws`): algebraic laws that relate the specification functions to each other.
- `state_names.dfy` (`StateNames`): decimal numerals in state names.
- `link_segment.dfy` (`LinkSegment`): the model as a class.
  - Its methods are proved against value-level specifications of a step, a run schedule and a history.
- `float_panel.dfy` (`FloatPanel`): the format pattern and `checkValue`.
  - The pattern is written twice, as a greedy scanner and as a decomposition into its seven parts.
  - The two are proved to accept the same texts.

Elements, times and coordinates are `real`, so every algebraic statement is exact. A Java `assert isMatrix(...)` is disabled by default, so it is a precondition (`WellFormed`). A thrown `IllegalArgumentException` is a `Failure`. For the matrix routines it carries the two sizes their message reports. The vector routines' message reports no sizes, so their `Failure` carries none.

## Model

| member | source | states |
|---|---|---|
| MatrixUtil.IsMatrix | simulator/src/java/main/ca/neo/util/MU.java:25-36 | true exactly when every row is as long as row 0; at least one row is required |
| MatrixUtil.Clone | simulator/src/java/main/ca/neo/util/MU.java:42-51 | the result has as many rows as the input, each equal to the input row |
| MatrixUtil.ProdVectorScalar | simulator/src/java/main/ca/neo/util/MU.java:87-93 | same length, entry i is X[i]·a |
| MatrixUtil.ProdVectorVector | simulator/src/java/main/ca/neo/util/MU.java:100-111 | differing lengths throw, with a message that reports no sizes; otherwise the inner product Σ X[i]·Y[i] |
| MatrixUtil.ProdMatrixVector | simulator/src/java/main/ca/neo/util/MU.java:118-135 | throws when A[0].length differs from X.length; otherwise entry i is row i of A dotted with X |
| MatrixUtil.ProdMatrixMatrix | simulator/src/java/main/ca/neo/util/MU.java:142-163 | throws when A[0].length differs from B.length; otherwise entry (i, j) is row i of A dotted with column j of B |
| MatrixUtil.AccumulateDot | simulator/src/java/main/ca/neo/util/MU.java:156-158 | the innermost loop of the product: slot j, zero on entry, ends as row i of A dotted with column j of B, and no other slot changes |
| MatrixUtil.ProdMatrixScalar | simulator/src/java/main/ca/neo/util/MU.java:170-182 | same shape, entry (i, j) is A[i][j]·a |
| MatrixUtil.MatrixSumOrDifference | simulator/src/java/main/ca/neo/util/MU.java:189-244 | the column count is checked before the row count; otherwise the entry-wise sum or difference |
| MatrixUtil.SumMatrices | simulator/src/java/main/ca/neo/util/MU.java:189-213 | differing column counts throw first, then differing row counts; otherwise A + B entry-wise |
| MatrixUtil.DifferenceMatrices | simulator/src/java/main/ca/neo/util/MU.java:220-244 | differing column counts throw first, then differing row counts; otherwise A − B entry-wise |
| MatrixUtil.SumVectors | simulator/src/java/main/ca/neo/util/MU.java:251-262 | differing lengths throw, with a message that reports no sizes; otherwise X + Y entry-wise |
| MatrixUtil.DifferenceVectors | simulator/src/java/main/ca/neo/util/MU.java:269-280 | differing lengths throw, with a message that reports no sizes; otherwise X − Y entry-wise |
| MatrixUtil.Shape | simulator/src/java/main/ca/neo/util/MU.java:289-323 | exactly `rows` rows of `cols` entries; cell (i, j) is value i·cols + j of the input read row-major, skipping null and empty rows, and 0 past the end of the data |
| MatrixUtil.CopyRow | simulator/src/java/main/ca/neo/util/MU.java:302-319 | the labelled row loop: entry l is value taken + l of the data (0 once the data has run out), and the cursor has advanced by `cols` values |
| MatrixUtil.NextValue | simulator/src/java/main/ca/neo/util/MU.java:304-316 | the cursor walk: either it stops on the next value of the data, passing over null and used-up rows, or every row is used up and no value is left |
| MatrixUtil.Transpose | simulator/src/java/main/ca/neo/util/MU.java:329-343 | no rows give no rows; otherwise matrix[0].length rows of matrix.length entries with result[i][j] = matrix[j][i] |
| MatrixUtil.Diag | simulator/src/java/main/ca/neo/util/MU.java:349-358 | square of the entries' length, entries[i] on the diagonal and 0 elsewhere |
| MatrixUtil.Identity | simulator/src/java/main/ca/neo/util/MU.java:364-373 | n × n, 1 on the diagonal and 0 elsewhere |
| MatrixUtil.Zero | simulator/src/java/main/ca/neo/util/MU.java:380-388 | rows × cols, every entry 0 |
| MatrixUtil.Uniform | simulator/src/java/main/ca/neo/util/MU.java:396-407 | rows × cols, every entry the given value |
| MatrixUtil.CopyAsWritten | simulator/src/java/main/ca/neo/util/MU.java:60-80 | the method as written, on every input with start ≤ end + 1 and end ≤ vector.length (end < vector.length when interval is 1). With interval 1 it gives the inclusive slice. Otherwise it has Math.round((end−start+1)/interval) slots and takes the strided entries strictly below `end`; unfilled slots stay 0, the result is trimmed to the written entries and one 0 when more than one slot is unfilled, and an index exception is thrown when the slots run out |
| MatrixUtil.FillStrided | simulator/src/java/main/ca/neo/util/MU.java:68-71 | the stride loop of copy: it overruns exactly when the strided entries below `end` outnumber the slots; otherwise it writes exactly those entries from slot 0 on, leaves the other slots 0 and reports how many it wrote |
| MatrixUtil.Copy | simulator/src/java/main/ca/neo/util/MU.java:60-80 | corrected copy: the entries at start, start + interval, … up to and including `end` |
| MatrixUtil.StridedAt | simulator/src/java/main/ca/neo/util/MU.java:60-80 | the copied entries are exactly vector[start + t·interval], each index in range, and the first index left out is past the bound |
| MatrixUtil.StridedByOne | simulator/src/java/main/ca/neo/util/MU.java:63-65 | with interval 1 the corrected copy is the inclusive slice, as the interval-1 branch computes |
| MatrixUtil.CopyReachesEnd | simulator/src/java/main/ca/neo/util/MU.java:60-80 | when end = start + m·interval the corrected copy has m + 1 entries and ends with vector[end] |
| MatrixUtil.CopyDropsLastEntry | simulator/src/java/main/ca/neo/util/MU.java:67-70 | copy([1,2,3,4,5], 0, 2, 4) as written gives [1,3,0], where the corrected copy gives [1,3,5] |
| MatrixUtil.CopyOverruns | simulator/src/java/main/ca/neo/util/MU.java:67-70 | copy([1,2], 0, 5, 1) as written allocates no slot and throws, where the corrected copy gives [1] |
| MatrixUtil.CopyFallsShort | simulator/src/java/main/ca/neo/util/MU.java:67-70 | copy([1,2,3,4], 0, 3, 3) as written gives [1], one entry short and without a 0, where the corrected copy gives [1,4] |
| MatrixUtil.CopyBoundaryInputs | simulator/src/java/main/ca/neo/util/MU.java:60-80 | as written, copy([1,2], 2, 2, 1) returns [] (empty range), and copy([1,2,3,4,5], 0, 2, 5) returns [1,3,5], because `end` = vector.length is never read when the interval is above 1 |
| MatrixUtil.VectorExpander.constructor | simulator/src/java/main/ca/neo/util/MU.java:658-661 | empty contents, capacity 1000 |
| MatrixUtil.VectorExpander.Add | simulator/src/java/main/ca/neo/util/MU.java:666-674 | the contents gain the value at the end; the array is replaced by one 1000 slots longer only when it was full; index ≤ capacity, and the capacity stays a multiple of 1000 |
| MatrixUtil.VectorExpander.ToArray | simulator/src/java/main/ca/neo/util/MU.java:679-683 | exactly the appended values, in order |
| MatrixUtil.MatrixExpander.constructor | simulator/src/java/main/ca/neo/util/MU.java:698-701 | empty contents, capacity 1000 |
| MatrixUtil.MatrixExpander.Add | simulator/src/java/main/ca/neo/util/MU.java:706-714 | the contents gain the row at the end; the array grows by 1000 only when it was full; index ≤ capacity |
| MatrixUtil.MatrixExpander.ToArray | simulator/src/java/main/ca/neo/util/MU.java:719-723 | exactly the appended rows, in order |
| MatrixLaws.DotSymmetric | simulator/src/java/main/ca/neo/util/MU.java:100-111 | X·Y = Y·X |
| MatrixLaws.DotDistributes | simulator/src/java/main/ca/neo/util/MU.java:100-111 | (X + Y)·Z = X·Z + Y·Z |
| MatrixLaws.DotUnit | simulator/src/java/main/ca/neo/util/MU.java:100-111 | the dot product with c times unit vector k is X[k]·c |
| MatrixLaws.ProductColumnIsApplied | simulator/src/java/main/ca/neo/util/MU.java:142-163 | column j of A·B is A applied to column j of B, so the matrix-matrix and matrix-vector products agree |
| MatrixLaws.AppliedDistributes | simulator/src/java/main/ca/neo/util/MU.java:118-135 | A(X + Y) = AX + AY |
| MatrixLaws.IdentityIsLeftUnit | simulator/src/java/main/ca/neo/util/MU.java:364-373 | I·A = A for every rectangular A |
| MatrixLaws.IdentityIsRightUnit | simulator/src/java/main/ca/neo/util/MU.java:364-373 | A·I = A for every rectangular A with at least one column |
| MatrixLaws.DiagonalApplied | simulator/src/java/main/ca/neo/util/MU.java:349-358 | diag(d)·X has entries d[i]·X[i] |
| MatrixLaws.IdentityIsDiagonalOfOnes | simulator/src/java/main/ca/neo/util/MU.java:349-373 | I(n) is diag of n ones |
| MatrixLaws.TransposeInvolutive | simulator/src/java/main/ca/neo/util/MU.java:329-343 | transposing twice gives back a rectangular matrix with at least one row and one column |
| MatrixLaws.TransposeOfProduct | simulator/src/java/main/ca/neo/util/MU.java:329-343 | (A·B)ᵀ = Bᵀ·Aᵀ |
| MatrixLaws.SumUndoesDifference | simulator/src/java/main/ca/neo/util/MU.java:189-244 | (A − B) + B = A, and adding the zero matrix changes nothing |
| MatrixLaws.ScalingInverts | simulator/src/java/main/ca/neo/util/MU.java:170-182 | scaling by s and then by 1/s gives the matrix back |
| MatrixLaws.FlattenRectangular | simulator/src/java/main/ca/neo/util/MU.java:289-323 | the first r rows of a rectangular matrix hold r·width values |
| MatrixLaws.ReshapeToOwnShape | simulator/src/java/main/ca/neo/util/MU.java:289-323 | reshaping a rectangular matrix to its own dimensions gives it back entry by entry |
| StateNames.Numeral | simulator/src/java/main/ca/neo/model/muscle/impl/LinkSegmentModelImpl.java:53 | the numeral that `"q" + i` appends is a non-empty digit string without leading zeros |
| StateNames.NumeralRoundTrip | simulator/src/java/main/ca/neo/model/muscle/impl/LinkSegmentModelImpl.java:190-191 | parsing the numeral of n gives n |
| StateNames.NumeralInjective | simulator/src/java/main/ca/neo/model/muscle/impl/LinkSegmentModelImpl.java:52-54 | distinct coordinates get distinct numerals, so "q" names never clash |
| StateNames.CoordinateNameOf | simulator/src/java/main/ca/neo/model/muscle/impl/LinkSegmentModelImpl.java:190-191 | "p" + i matches p\d+ and selects coordinate i |
| StateNames.LeadingZeros | simulator/src/java/main/ca/neo/model/muscle/impl/LinkSegmentModelImpl.java:190-191 | a leading zero does not change the selected coordinate |
| LinkSegment.StepSpec | simulator/src/java/main/ca/neo/model/muscle/impl/LinkSegmentModelImpl.java:148-160 | each muscle gets its length from the coordinates and runs over [t, t+h]; the state becomes state + h·f(state, t, torques) and the time grows by exactly h; a derivative of the wrong length throws after the muscles have moved, leaving state and time alone; every slot stays defined |
| LinkSegment.RemainingDecreases | simulator/src/java/main/ca/neo/model/muscle/impl/LinkSegmentModelImpl.java:140-143 | with a positive time step every step of the loop reduces the bound on the steps left |
| LinkSegment.ScheduleCovers | simulator/src/java/main/ca/neo/model/muscle/impl/LinkSegmentModelImpl.java:137-146 | the steps of a run add up to endTime − startTime; a run that starts at or after its end takes no step |
| LinkSegment.ScheduleShape | simulator/src/java/main/ca/neo/model/muscle/impl/LinkSegmentModelImpl.java:140-143 | every step but the last has length myTimeStep; the last is in (0, 1.1·myTimeStep], and longer than 0.1·myTimeStep when a full step precedes it |
| LinkSegment.ScheduleExample | simulator/src/java/main/ca/neo/model/muscle/impl/LinkSegmentModelImpl.java:137-146 | a run from 0 to 1 with time step 0.3 takes steps 0.3, 0.3, 0.3, 0.1 |
| LinkSegment.ZeroStepStalls | simulator/src/java/main/ca/neo/model/muscle/impl/LinkSegmentModelImpl.java:141 | with time step 0 each step short of the end has length 0, so the time never advances |
| LinkSegment.SimulateAdvancesTime | simulator/src/java/main/ca/neo/model/muscle/impl/LinkSegmentModelImpl.java:137-160 | a completed sequence of steps advances the time by their total and keeps the number of coordinates |
| LinkSegment.RunEndsAtEndTime | simulator/src/java/main/ca/neo/model/muscle/impl/LinkSegmentModelImpl.java:137-146 | a completed run that starts before its end reaches endTime on its own, so the closing assignment changes nothing |
| LinkSegment.LinkSegmentModel.constructor | simulator/src/java/main/ca/neo/model/muscle/impl/LinkSegmentModelImpl.java:44-55 | slot arrays sized to the input dimension and empty; states q0 … q(n−1); no joints; the name and time step are not stored, so the time step is 0 |
| LinkSegment.LinkSegmentModel.Configured | simulator/src/java/main/ca/neo/model/muscle/impl/LinkSegmentModelImpl.java:44-55 | corrected constructor: as above, but keeps the name and the time step |
| LinkSegment.LinkSegmentModel.DefineJoint | simulator/src/java/main/ca/neo/model/muscle/impl/LinkSegmentModelImpl.java:62-70 | throws IllegalArgumentException exactly when the definition has neither 2 nor 3 functions, changing nothing; otherwise maps the name to the definition and lists "Joint coordinates for " + name |
| LinkSegment.LinkSegmentModel.DefineMuscle | simulator/src/java/main/ca/neo/model/muscle/impl/LinkSegmentModelImpl.java:72-76 | sets slot `input` of the muscle, length and moment-arm arrays and no other slot; an input past the end throws and changes nothing |
| LinkSegment.LinkSegmentModel.GetOrigin | simulator/src/java/main/ca/neo/model/muscle/impl/LinkSegmentModelImpl.java:109-111 | always a StructuralException |
| LinkSegment.LinkSegmentModel.GetOrigins | simulator/src/java/main/ca/neo/model/muscle/impl/LinkSegmentModelImpl.java:116-118 | always empty |
| LinkSegment.LinkSegmentModel.GetTermination | simulator/src/java/main/ca/neo/model/muscle/impl/LinkSegmentModelImpl.java:123-125 | always a StructuralException |
| LinkSegment.LinkSegmentModel.GetTerminations | simulator/src/java/main/ca/neo/model/muscle/impl/LinkSegmentModelImpl.java:130-132 | always empty |
| LinkSegment.LinkSegmentModel.AdvanceMuscles | simulator/src/java/main/ca/neo/model/muscle/impl/LinkSegmentModelImpl.java:151-155 | each muscle slot holds the muscle after setLength(length_i(state)) and run(t, t+h); torque i is its force times moment arm i at the state |
| LinkSegment.LinkSegmentModel.AdvanceMuscle | simulator/src/java/main/ca/neo/model/muscle/impl/LinkSegmentModelImpl.java:152-154 | one pass of the muscle loop: only slot i changes, to the muscle after setLength and run, and the torque is its force times moment arm i at the state |
| LinkSegment.LinkSegmentModel.Step | simulator/src/java/main/ca/neo/model/muscle/impl/LinkSegmentModelImpl.java:148-160 | the new coordinates, muscles and time are those of StepSpec, and the exception is reported exactly when StepSpec aborts; the joints, the listed states, the time step and the length and moment-arm slots are unchanged |
| LinkSegment.LinkSegmentModel.Run | simulator/src/java/main/ca/neo/model/muscle/impl/LinkSegmentModelImpl.java:137-146 | with a positive time step the loop terminates; the final coordinates and muscles are those of the schedule's steps from startTime, and the time is endTime; the first exception stops the run where it happened |
| LinkSegment.LinkSegmentModel.Reset | simulator/src/java/main/ca/neo/model/muscle/impl/LinkSegmentModelImpl.java:171-173 | the coordinates become zeros of the same length, whatever `randomize` is |
| LinkSegment.LinkSegmentModel.GetHistory | simulator/src/java/main/ca/neo/model/muscle/impl/LinkSegmentModelImpl.java:178-198 | the joint series, the coordinate series or the unknown-state exception, as HistorySpec dispatches |
| LinkSegment.JointNameTakesPrecedence | simulator/src/java/main/ca/neo/model/muscle/impl/LinkSegmentModelImpl.java:181-189 | a joint name gives one sample at the current time, with one coordinate in metres per definition function, even when it also looks like p<digits> |
| LinkSegment.CoordinateHistory | simulator/src/java/main/ca/neo/model/muscle/impl/LinkSegmentModelImpl.java:190-192 | "p" + i, when it is not a joint name, gives one sample of coordinate i at the current time in unknown units |
| LinkSegment.UnknownStateFails | simulator/src/java/main/ca/neo/model/muscle/impl/LinkSegmentModelImpl.java:193-194 | any other name throws SimulationException "The state <name> is unknown" |
| LinkSegment.HistoryAfterReset | simulator/src/java/main/ca/neo/model/muscle/impl/LinkSegmentModelImpl.java:171-192 | after a reset every coordinate's history reads 0 |
| LinkSegment.CoordinateStatesListed | simulator/src/java/main/ca/neo/model/muscle/impl/LinkSegmentModelImpl.java:51-54 | the constructor lists "q" + i as "Generalized coordinate " + i for every coordinate i, and only names starting with q |
| LinkSegment.ListedCoordinatesNotQueryable | simulator/src/java/main/ca/neo/model/muscle/impl/LinkSegmentModelImpl.java:51-54 | a listed "q" name that is not a joint makes the history call throw |
| FloatPanel.ScanSound | simulator-ui/src/java/main/ca/nengo/ui/configurable/panels/FloatPanel.java:49 | what the greedy scanner accepts splits into the pattern's seven parts |
| FloatPanel.ScanComplete | simulator-ui/src/java/main/ca/nengo/ui/configurable/panels/FloatPanel.java:49 | every text that splits into the pattern's parts is accepted by the greedy scanner |
| FloatPanel.FormatOkMatchesPattern | simulator-ui/src/java/main/ca/nengo/ui/configurable/panels/FloatPanel.java:49 | the scanner accepts exactly the texts matching \s*-??[0-9]*[.]??[0-9]*([eE][-\|\+]??[0-9]+)??\s* |
| FloatPanel.CheckValue | simulator-ui/src/java/main/ca/nengo/ui/configurable/panels/FloatPanel.java:46-55 | ValueNotSet exactly for null or empty text; otherwise InvalidFormat exactly when the pattern fails; otherwise, with range checking, OutOfRange exactly when the parsed value is out of range and a NumberFormatException when parsing fails; NoError in every other case |
| FloatPanel.DecimalMatches | simulator-ui/src/java/main/ca/nengo/ui/configurable/panels/FloatPanel.java:49 | every text of the form -digits.digits matches |
| FloatPanel.BlankTextMatches | simulator-ui/src/java/main/ca/nengo/ui/configurable/panels/FloatPanel.java:49 | whitespace-only text matches |
| FloatPanel.LoneMinusMatches | simulator-ui/src/java/main/ca/nengo/ui/configurable/panels/FloatPanel.java:49 | "-" matches |
| FloatPanel.LonePointMatches | simulator-ui/src/java/main/ca/nengo/ui/configurable/panels/FloatPanel.java:49 | "." matches |
| FloatPanel.LoneExponentMatches | simulator-ui/src/java/main/ca/nengo/ui/configurable/panels/FloatPanel.java:49 | "e5" matches |
| FloatPanel.BarSignedExponentMatches | simulator-ui/src/java/main/ca/nengo/ui/configurable/panels/FloatPanel.java:49 | "1e\|5" matches, because the sign class admits a vertical bar |
| FloatPanel.TwoPointsRejected | simulator-ui/src/java/main/ca/nengo/ui/configurable/panels/FloatPanel.java:49 | "1.2.3" does not match |
| FloatPanel.BareExponentMarkRejected | simulator-ui/src/java/main/ca/nengo/ui/configurable/panels/FloatPanel.java:49 | "1e" does not match |
| FloatPanel.InnerSpaceRejected | simulator-ui/src/java/main/ca/nengo/ui/configurable/panels/FloatPanel.java:49 | "1 2" does not match |
| FloatPanel.NoRangeCheckAcceptsWellFormed | simulator-ui/src/java/main/ca/nengo/ui/configurable/panels/FloatPanel.java:51-54 | with range checking off, every non-empty well-formed text gives NoError |
| FloatPanel.LoneMinusThrowsWhenRangeChecked | simulator-ui/src/java/main/ca/nengo/ui/configurable/panels/FloatPanel.java:49-51 | "-" passes the format check, so with range checking on, a parser that rejects it makes checkValue throw |

## Left out

- Floating point: elements, times and coordinates are exact reals.
  - The model does not capture float rounding in the products and sums.
  - It does not capture the float accumulation of `myTime`.
  - It does not capture `Math.round`'s rounding of the `copy` slot count, which is modelled as rounding half up of the exact quotient.
- `MU.random` (its PDF has no implementation here) and the float-specific routines are not modelled: `normalize`, `pnorm`, `convert`, `makeVector`, the vector `sum`/`mean`/`variance`, `toString`, and the debug logging.
- Aliasing: a row shared between a matrix and a routine's result is not modelled, because results are values. Neither is one muscle object placed in two slots, because muscles are values held by their slots.
- `MatrixExpander` keeps `null` in unused slots; the model keeps empty rows there. Nothing reads those slots.
- The dynamical system, the skeletal muscles and the coordinate functions are foreign code.
  - A muscle is a value carrying its own transition and force functions.
  - The dynamics is a function f(state, time, input).
  - Neither ever throws.
- The time series, its units and the model's `Properties` list are values. `listStates`, `getJointNames`, `getMuscles`, `getMode`, `getName` and `setMode` are not modelled.
- LinkSegment.LinkSegmentModel.Step and LinkSegment.LinkSegmentModel.Run: these require every muscle, length and moment-arm slot to be defined. An undefined slot makes the source throw a NullPointerException mid-step, and that path is not modelled.
- `defineMuscle` with null arguments is not modelled: its arguments are values.
- LinkSegment.LinkSegmentModel.GetHistory: this requires a "p<digits>" name that is not a joint to select an existing coordinate. The source does not bounds-check the index, and a numeral too large for an `int` throws NumberFormatException; both are excluded.
- MatrixUtil.Transpose: requires every row to be at least as long as row 0. For a ragged matrix with a shorter later row, Java throws ArrayIndexOutOfBoundsException inside the copy loop (MU.java:339); that path is not modelled.
- MatrixUtil.Shape: the sizes are `nat`, so the NegativeArraySizeException Java throws for a negative size (MU.java:290 and the row allocation after it) is not modelled.
- MatrixUtil.Identity: the dimension is a `nat`, so the NegativeArraySizeException for a negative dimension (MU.java:365) is not modelled.
- MatrixUtil.Zero: the sizes are `nat`, so the NegativeArraySizeException for a negative size (MU.java:381 and the row allocation after it) is not modelled.
- MatrixUtil.Uniform: the sizes are `nat`, so the NegativeArraySizeException for a negative size (MU.java:397 and the row allocation after it) is not modelled.
- LinkSegment.LinkSegmentModel.DefineMuscle: `input` is a `nat`, so the ArrayIndexOutOfBoundsException for a negative input (LinkSegmentModelImpl.java:73) is not modelled; only an input past the end is.
- Null matrices and rows: only `Shape`'s input can hold null rows (as `None`), and not in row 0. For `IsMatrix`, `Clone`, `Transpose`, the products, sums and differences, a `Matrix` has no null rows, so the NullPointerException Java throws on a null argument or row is not modelled.
- MatrixUtil.IsMatrix: requires at least one row. On an empty matrix Java throws ArrayIndexOutOfBoundsException when it reads `matrix[0]` (MU.java:28); that path is not modelled.
- MatrixUtil.Shape: requires at least one row and a non-null row 0. Java reads `matrix[0].length` for a debug message (MU.java:296), so an empty matrix throws ArrayIndexOutOfBoundsException and a null row 0 throws NullPointerException; neither path is modelled.
- MatrixUtil.CopyAsWritten: inputs outside start ≤ end + 1 and end ≤ vector.length (end < vector.length when interval is 1) are not modelled. On those Java throws for some and returns normally for others. For example:
  - interval 1 with end ≥ vector.length throws from System.arraycopy;
  - copy(v, 5, 2, 0) throws NegativeArraySizeException for Math.round(−2);
  - copy([1,2,3], 0, 2, 4) returns [1,3,0], because the loop stops at j = 4 without reading past the end;
  - copy(v, 1, 0, 0) returns [], because Math.round of 0/0 (NaN) is 0;
  - copy(v, 0, −2, 0) returns [], because Math.round(−0.5) is 0;
  - copy(v, −1, 2, −1) returns [0.0].
- MatrixUtil.Copy: the corrected copy has the same domain as the interval-1 branch: start ≤ end + 1, end < vector.length and a positive interval.
- FloatPanel.CheckValue: `Float.parseFloat` and the property's range test are parameters, because they are foreign calls. The text that `getValue` parses is the panel's current text, which is also a parameter.

## Behaviour of the Java that the model keeps

- `reset` zeroes the coordinates and leaves `myTime` alone (LinkSegmentModelImpl.java:171-173); `Reset` models exactly that.
- `run` does not call `reset` first (LinkSegmentModelImpl.java:137-146), so a run continues from the current coordinates and muscles.
- The constructor lists the coordinates as `"q" + i` (LinkSegmentModelImpl.java:53), while `getHistory` accepts only `p\d+` (LinkSegmentModelImpl.java:190); `ListedCoordinatesNotQueryable` states the consequence.

## Findings

| source | as written | input that shows it | evidently intended | confidence | as-written member | corrected member |
|---|---|---|---|---|---|---|
| simulator/src/java/main/ca/neo/util/MU.java:67-70 | with an interval above 1, `copy` sizes its result with Math.round((end−start+1)/interval) and copies only indices strictly below `end`, so when `end` lies on the stride (end = start + m·interval) the entry at `end` is dropped: with interval 2 a 0 takes its slot, with interval 3 or more the result is one entry short; when `end` is off the stride nothing is lost; when the rounded size is too small it overruns the result | copy([1,2,3,4,5], 0, 2, 4) gives [1,3,0]; copy([1,2,3,4], 0, 3, 3) gives [1]; copy([1,2], 0, 5, 1) throws ArrayIndexOutOfBoundsException | the entries at start, start+interval, … up to and including `end`, as the interval-1 branch does | not executed | MatrixUtil.CopyDropsLastEntry | MatrixUtil.Copy |
| simulator/src/java/main/ca/neo/model/muscle/impl/LinkSegmentModelImpl.java:44-55 | the constructor stores neither its `name` nor its `timeStep`, so `myTimeStep` stays 0 and every step of `run` has length 0 | new LinkSegmentModelImpl("arm", dynamics, 0.001f) followed by run(0, 1): the loop never ends | store the time step (and name) so that `run` advances by `timeStep` and terminates | not executed | LinkSegment.ZeroStepStalls | LinkSegment.LinkSegmentModel.Configured |
