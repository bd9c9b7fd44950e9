# Soil mass-loss and stormwater runoff calculator — a Dafny model

`index.js` drives a one-page calculator with two groups of inputs.

- **Soil group.** Flow (m³/hr), concentration (kg/m³) and mass loss (kg/hr) are linked by mass loss = flow × concentration.
- **Runoff group.** Area (m²), rainfall intensity (m/hr), an optional runoff coefficient and runoff volume (m³/hr) are linked by runoff = area × intensity × coefficient.

There are six solvers. Each one:

- reads two inputs of its group;
- reports a missing input, or for the four dividing solvers a zero divisor, in the group's result panel;
- otherwise writes its result, rounded to six decimals, back into its own input and shows a success message.

The page also has "clear" actions for each group and for both, a loader for example values, and an Enter-key listener that runs the solver for the group the focus is in.

The project has four modules:

- `Wrappers` (`wrappers.dfy`) holds `Option` and `Abs`.
- `NumberFormat` (`number_format.dfy`) models `formatNumber`. It covers the `x.toFixed(6)` digit string, the `Number(...)` read-back of a decimal numeral, the trailing-zero regular expression `/\.?(0+)$/`, and the value `Round6(x) = Number(x.toFixed(6))` that every solver stores. The rounding is proved to read back from the digit string.
- `Calculator` (`calculator.dfy`) holds the fields, groups and solvers of the form. It has one pure function per solver and a `Snapshot` value of the whole form. Each operation is specified as a function on snapshots (`Step`, `SoilCleared`, `RunoffCleared`, `AllCleared`, `WithExample`, `KeyDown`). The class `Form` holds the seven inputs and two panels as fields. Its methods mirror the source's functions statement by statement, and each is proved to produce exactly the snapshot its specification function gives.
- `CalculatorProperties` (`properties.dfy`) proves properties that relate several operations:
  - the solvers of a group invert each other;
  - computing mass loss and then concentration returns the concentration within the rounding error;
  - the coefficient quirk breaks the runoff round trip at coefficient 0;
  - clearing leaves every solver with a missing input;
  - the example values give the expected results;
  - concrete `formatNumber` outputs.

Numbers are modelled as Dafny `real`s, not IEEE-754 doubles (see "Left out"). A blank or unparseable input is `None`.

Two behaviours follow the code rather than what its names or comments suggest:

- exampleValues (index.js:215-224) never writes the runoff input, so `Calculator.WithExample` keeps the runoff value it finds.
- The comment at index.js:229 speaks of falling back to concentration, but the listener only ever runs calcMassLoss or calcRunoffVolume. `Calculator.KeyDown` does the same.

## Model

| member | source | states |
|---|---|---|
| NumberFormat.FormatNumber | index.js:1-9 | A missing value gives the placeholder "—", and only a missing value does. \|x\| >= 1000 gives the locale-grouped form of x, and only then. Otherwise the text reads back (via Number) as x rounded to six decimals and ends in neither '.' nor a trailing fractional '0'. |
| NumberFormat.Round6 | index.js:37 | Number(x.toFixed(6)) is within 5e-7 of x and keeps x's sign. |
| NumberFormat.ScaledRound | index.js:7 | The integer toFixed(6) picks for a non-negative x is the nearest to x·10⁶, with ties going up. |
| NumberFormat.Numeral | index.js:7 | The integer part toFixed writes is a non-empty digit string with no leading zero whose value is n. |
| NumberFormat.FixedWidth | index.js:7 | The fraction toFixed(6) writes is exactly w digits (zero-padded) whose value is k. |
| NumberFormat.FixedShape | index.js:7 | toFixed(6) writes a '-' exactly for negative x, then one or more integer digits, a '.', and six digits. |
| NumberFormat.FixedReadsBack | index.js:37 | Number applied to x.toFixed(6) gives Round6(x), i.e. the digit string denotes the rounded value. |
| NumberFormat.ScaledDigits | index.js:7 | The integer and fraction digits of the scaled integer n denote n / 10⁶. |
| NumberFormat.DropZeros | index.js:8 | The regular expression's `0+` run: the result is a prefix, what it removes is all zeros, and it leaves no trailing '0'. |
| NumberFormat.StripZeros | index.js:8 | replace(/\.?(0+)$/, "") returns a prefix of its input, unchanged exactly when the input does not end in '0'. Otherwise it removes either the whole trailing run of zeros, leaving no trailing '0' or '.', or a '.' followed by nothing but one or more zeros. |
| NumberFormat.DropZerosAppend | index.js:8 | Trailing zeros come off the fraction first. Only when the fraction is all zeros do they reach into what precedes it. |
| NumberFormat.StripFixedPoint | index.js:6-8 | On "i.f", an all-zero fraction is removed together with its '.'. Otherwise only the fraction's trailing zeros go. The integer part is never touched. |
| NumberFormat.DropZerosValue | index.js:8 | Each dropped trailing zero divides the digit string's value by ten. |
| NumberFormat.FractionValue | index.js:8 | Dropping trailing zeros from a fraction does not change the number it denotes. |
| NumberFormat.UnsignedValue | index.js:37 | Number, as applied to a stored numeral at index.js:37, 68, 99, 125, 157 and 185, reads "w.f" as w + f/10^\|f\| and "w" as w. |
| NumberFormat.SignedValue | index.js:37 | A leading '-' negates the value Number reads from a stored numeral. |
| NumberFormat.NumeralReadsBack | index.js:37 | Number reads a signed numeral "±w.f" as ±(w + f/10^\|f\|). |
| NumberFormat.WholeReadsBack | index.js:37 | Number reads a signed whole numeral "±w" as ±w. |
| NumberFormat.FormattedFixed | index.js:6-8 | The stripped toFixed(6) text reads back as Round6(x) and has no trailing '.' or fractional '0'. |
| NumberFormat.StrippedWhole | index.js:6-8 | When the fraction was all zeros, the stripped text "±w" has no '.' and ends in a digit. |
| NumberFormat.StrippedFraction | index.js:6-8 | When the fraction was not all zeros, the stripped text "±w.t" ends in a non-zero digit. |
| Calculator.OutputOf | index.js:25-194 | Each solver writes one input of its own group, and no solver writes the coefficient. |
| Calculator.RequiredOf | index.js:25-194 | A solver's two required inputs lie in its group, are distinct, and are neither its output nor the coefficient. |
| Calculator.DivisorOf | index.js:59-183 | The input a solver checks for zero is one of its two required inputs. |
| Calculator.FalsyDefault | index.js:147 | `getFloat("coeff") \|\| 1` is never 0, and is 1 when the coefficient is 0. It agrees with calcRunoffVolume's `coeff === null ? 1 : coeff` exactly when the coefficient is not 0. |
| Calculator.MassLossFrom | index.js:25-37 | Missing input exactly when flow or concentration is blank. Never a zero-divisor error. Otherwise mass = flow × concentration. |
| Calculator.ConcentrationFrom | index.js:48-68 | Missing input exactly when flow or mass is blank. Zero divisor exactly when both are present and flow = 0. Otherwise the result times flow is the mass. |
| Calculator.FlowFrom | index.js:79-99 | Missing input exactly when concentration or mass is blank. Zero divisor exactly when both are present and concentration = 0. Otherwise the result times concentration is the mass. |
| Calculator.RunoffFrom | index.js:111-125 | Missing input exactly when area or intensity is blank. Never a zero-divisor error. Otherwise runoff = area × intensity × the null-defaulted coefficient. |
| Calculator.AreaFrom | index.js:136-157 | Missing input exactly when runoff or intensity is blank. Zero divisor exactly when both are present and intensity = 0. Otherwise area × (intensity × the falsy-defaulted coefficient) is the runoff. |
| Calculator.IntensityFrom | index.js:168-185 | Missing input exactly when runoff or area is blank. Zero divisor exactly when both are present and area = 0. Otherwise intensity × (area × the falsy-defaulted coefficient) is the runoff. |
| Calculator.Put | index.js:37 | Writing an input's value changes that input only. |
| Calculator.WithPanel | index.js:18-22 | show() makes one panel display the message and touches no input and no other panel. |
| Calculator.Solve | index.js:25-194 | The missing-input error happens exactly when a required input is blank. The zero-divisor error happens exactly when both inputs are present and the solver's divisor is 0. |
| Calculator.Step | index.js:25-194 | A solver run changes no input but its output. On failure it changes no input at all, and its panel shows the error Solve met. On success it writes Round6 of the computed value, and its panel shows the unrounded value. It leaves the other group's panel alone. |
| Calculator.SoilCleared | index.js:197-202 | The soil inputs become blank and the soil panel hidden. Every runoff input and the runoff panel are unchanged. |
| Calculator.RunoffCleared | index.js:203-209 | The runoff inputs, coefficient included, become blank and the runoff panel hidden. The soil group is unchanged. |
| Calculator.AllCleared | index.js:210-213 | clearAll leaves the blank form, whatever the form held. |
| Calculator.WithExample | index.js:215-224 | The sample values are flow 0.5, concentration 120, area 100, intensity 0.01 and coefficient 0.8. Mass loss is blank and both panels are hidden. The runoff input keeps its value. |
| Calculator.KeyDown | index.js:227-235 | A key other than Enter, or focus outside the seven inputs, changes nothing. Enter in a soil input runs calcMassLoss, and Enter in a runoff input runs calcRunoffVolume. |
| Calculator.FocusedGroup | index.js:231-232 | The listener's two id lists name exactly the inputs of the soil group and of the runoff group. |
| Calculator.Form.Show | index.js:18-22 | The form afterwards is the old form with that panel showing the message. |
| Calculator.Form.CalcMassLoss | index.js:25-46 | The form afterwards is Step(SolveMassLoss) of the form before. |
| Calculator.Form.CalcConcentration | index.js:48-77 | The form afterwards is Step(SolveConcentration) of the form before. |
| Calculator.Form.CalcFlow | index.js:79-108 | The form afterwards is Step(SolveFlow) of the form before. |
| Calculator.Form.CalcRunoffVolume | index.js:111-134 | The form afterwards is Step(SolveRunoff) of the form before. |
| Calculator.Form.CalcAreaForRunoff | index.js:136-166 | The form afterwards is Step(SolveArea) of the form before. |
| Calculator.Form.CalcIntensityFromRunoff | index.js:168-194 | The form afterwards is Step(SolveIntensity) of the form before. |
| Calculator.Form.ClearSoilInputs | index.js:197-202 | The form afterwards is SoilCleared of the form before. |
| Calculator.Form.ClearRunoffInputs | index.js:203-209 | The form afterwards is RunoffCleared of the form before. |
| Calculator.Form.ClearAll | index.js:210-213 | The form afterwards is AllCleared (the blank form). |
| Calculator.Form.ExampleValues | index.js:215-224 | The form afterwards is WithExample of the form before. |
| Calculator.Form.OnKeyDown | index.js:227-235 | The form afterwards is KeyDown of the key, the focused id and the form before. |
| CalculatorProperties.SoilInverses | index.js:36-98 | Over exact arithmetic, calcConcentration and calcFlow recover the concentration and the flow from flow × concentration. |
| CalculatorProperties.MassLossThenConcentration | index.js:25-77 | calcMassLoss followed by calcConcentration returns the original concentration to within 5e-7 + 5e-7/\|flow\|. The two terms are the two six-decimal roundings. |
| CalculatorProperties.RoundedQuotient | index.js:36-68 | Round6(Round6(f·c)/f) is within 5e-7 + 5e-7/\|f\| of c. |
| CalculatorProperties.AreaThenRunoff | index.js:123-157 | With a non-zero intensity and a coefficient that is not 0, calcRunoffVolume on the area that calcAreaForRunoff finds gives back the runoff. |
| CalculatorProperties.IntensityThenRunoff | index.js:123-185 | With a non-zero area and a coefficient that is not 0, calcRunoffVolume on the intensity that calcIntensityFromRunoff finds gives back the runoff. |
| CalculatorProperties.ZeroCoeffBreaksRoundTrip | index.js:123-156 | With coefficient 0, calcAreaForRunoff computes with 1 but calcRunoffVolume keeps the 0, so the round trip yields 0 instead of the runoff. |
| CalculatorProperties.ClearAllThenSolve | index.js:197-213 | After clearAll every solver reports a missing input in its panel and writes nothing. |
| CalculatorProperties.ClearsCommute | index.js:197-213 | Clearing the soil group and then the runoff group, in either order, gives the same form as clearAll. |
| CalculatorProperties.ExampleThenRunoff | index.js:215-224 | After exampleValues, calcRunoffVolume stores 100 × 0.01 × 0.8 = 0.8 and shows it as a success. |
| CalculatorProperties.ExampleThenMassLoss | index.js:215-224 | After exampleValues, calcMassLoss stores 0.5 × 120 = 60. |
| CalculatorProperties.RunoffCoefficient | index.js:123-124 | For every area and intensity, calcRunoffVolume counts a blank coefficient as 1, and an entered 0 gives runoff 0. |
| CalculatorProperties.ZeroCoeffAsBlank | index.js:147 | For all inputs, calcAreaForRunoff and calcIntensityFromRunoff (index.js:179) give the same outcome with coefficient 0 as with a blank coefficient. |
| CalculatorProperties.ZeroIntensityArea | index.js:148-155 | A zero intensity stops calcAreaForRunoff with the zero-divisor error and changes no input. |
| CalculatorProperties.FormatHalf | index.js:6-8 | formatNumber(0.5) is "0.5". |
| CalculatorProperties.FormatWhole | index.js:6-8 | formatNumber(120) is "120": an all-zero fraction goes together with its point. |

## Left out

- DOM access, element lookup and event registration are not modelled. The seven inputs and two panels are fields of `Form`, and the listener is a method that takes the key and the focused element's id.
- getFloat (index.js:11-16) is not modelled: the text in an input and its parsing by `parseFloat` are not represented. An input holds a number or is blank (`None`). A blank or unparseable input both read as `None`, which is what getFloat returns for them.
- The HTML of the panels is not modelled. A message records the solver and either the computed value it displays or the kind of error. The markup, the units and the wording are not modelled, and neither are the operands echoed in the success text. That includes the raw `${c}`/`${coeff}` interpolation of the coefficient.
- Arithmetic is exact (`real`): IEEE-754 rounding, overflow to Infinity, NaN and -0 are not modelled. The `isNaN(n)` test of formatNumber therefore has no case of its own.
- NumberFormat.FormatNumber: the `toLocaleString(undefined, { maximumFractionDigits: 3 })` branch depends on the host locale. It is returned as the abstract `Grouped(x)`, and no digits are produced for it.
- NumberFormat.Round6: it models toFixed(6) on the exact real value, rounding half away from zero, and returns x unchanged when \|x\| >= 10²¹. The binary-to-decimal conversion of a double, which can shift a tie, is not modelled.
- NumberFormat.ParseNumber: it reads only what toFixed(6) produces: an optional '-', at least one digit, and optionally '.' followed by digits. Exponents, whitespace, "Infinity" and other inputs to `Number(...)` are not modelled.
