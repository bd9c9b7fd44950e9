/**
 * Properties that relate several operations of the calculator: the solvers
 * of a group invert one another, clearing leaves nothing for a solver to
 * work on, the example values give the expected results, and the two
 * coefficient defaults part ways at zero.
 */
module CalculatorProperties {
  import opened Wrappers
  import opened NumberFormat
  import opened Calculator

  // ---------------------------------------------------------------------
  // Soil group

  /** Over exact arithmetic, concentration and flow undo mass loss. */
  lemma SoilInverses(flow: real, conc: real)
    ensures MassLossFrom(Some(flow), Some(conc)) == Solved(flow * conc)
    ensures flow != 0.0 ==> ConcentrationFrom(Some(flow), Some(flow * conc)) == Solved(conc)
    ensures conc != 0.0 ==> FlowFrom(Some(conc), Some(flow * conc)) == Solved(flow)
  {
    if flow != 0.0 {
      var r := ConcentrationFrom(Some(flow), Some(flow * conc));
      assert r.value * flow == conc * flow;
    }
    if conc != 0.0 {
      var r := FlowFrom(Some(conc), Some(flow * conc));
      assert r.value * conc == flow * conc;
    }
  }

  /** Dividing an error of at most b by d gives an error of at most b / |d|. */
  lemma DivideBound(e: real, d: real, b: real)
    requires d != 0.0 && Abs(e) <= b
    ensures Abs(e / d) <= b / Abs(d)
  {
    var q := e / d;
    assert e == q * d;
    assert Abs(e) == Abs(q) * Abs(d);
    var k := b / Abs(d);
    assert b == k * Abs(d);
    assert Abs(q) * Abs(d) <= k * Abs(d);
  }

  /**
   * Computing mass loss, then concentration back from the stored (rounded)
   * mass loss, returns the original concentration up to the two roundings:
   * 5e-7 from storing the concentration and 5e-7 / |flow| from the stored
   * mass loss.
   */
  lemma {:induction false} MassLossThenConcentration(st: Snapshot)
    requires st.flow.Some? && st.flow.value != 0.0 && st.concentration.Some?
    ensures Step(SolveConcentration, Step(SolveMassLoss, st)).concentration.Some?
    ensures Abs(Step(SolveConcentration, Step(SolveMassLoss, st)).concentration.value - st.concentration.value)
            <= 0.0000005 + 0.0000005 / Abs(st.flow.value)
  {
    var f, c := st.flow.value, st.concentration.value;
    var o1 := Solve(SolveMassLoss, st);
    assert o1 == MassLossFrom(st.flow, st.concentration);
    assert o1.value == f * c;
    var st1 := Step(SolveMassLoss, st);
    var m := Round6(f * c);
    assert Get(st1, MassLoss) == Some(m);
    assert Get(st1, Flow) == Some(f);
    var o2 := Solve(SolveConcentration, st1);
    assert o2 == ConcentrationFrom(st1.flow, st1.massloss);
    assert o2.value == m / f;
    var st2 := Step(SolveConcentration, st1);
    assert Get(st2, Concentration) == Some(Round6(m / f));
    RoundedQuotient(f, c);
  }

  /** The arithmetic of the round trip: Round6(Round6(f × c) / f) is within 5e-7 + 5e-7 / |f| of c. */
  lemma RoundedQuotient(f: real, c: real)
    requires f != 0.0
    ensures Abs(Round6(Round6(f * c) / f) - c) <= 0.0000005 + 0.0000005 / Abs(f)
  {
    var m := Round6(f * c);
    var q := m / f;
    DiffQuotient(m, f, c);
    DivideBound(m - f * c, f, 0.0000005);
    assert Abs(q - c) <= 0.0000005 / Abs(f);
    assert Abs(Round6(q) - q) <= 0.0000005;
  }

  lemma DiffQuotient(m: real, f: real, c: real)
    requires f != 0.0
    ensures m / f - c == (m - f * c) / f
  {
    var r := (m - f * c) / f;
    assert r * f == m - f * c;
    assert (m / f) * f == m;
    assert (m / f - c) * f == m - c * f;
    assert (r - (m / f - c)) * f == 0.0;
  }

  // ---------------------------------------------------------------------
  // Runoff group

  /** The area solver inverts the runoff solver whenever the coefficient is not 0. */
  lemma AreaThenRunoff(runoff: real, intensity: real, coeff: Option<real>)
    requires intensity != 0.0 && coeff != Some(0.0)
    ensures AreaFrom(Some(runoff), Some(intensity), coeff).Solved?
    ensures RunoffFrom(Some(AreaFrom(Some(runoff), Some(intensity), coeff).value), Some(intensity), coeff)
            == Solved(runoff)
  {
    var a := AreaFrom(Some(runoff), Some(intensity), coeff).value;
    var c := NullDefault(coeff);
    assert c == FalsyDefault(coeff);
    assert a * (intensity * c) == runoff;
    assert a * intensity * c == a * (intensity * c);
  }

  /** The intensity solver inverts the runoff solver whenever the coefficient is not 0. */
  lemma IntensityThenRunoff(runoff: real, area: real, coeff: Option<real>)
    requires area != 0.0 && coeff != Some(0.0)
    ensures IntensityFrom(Some(runoff), Some(area), coeff).Solved?
    ensures RunoffFrom(Some(area), Some(IntensityFrom(Some(runoff), Some(area), coeff).value), coeff)
            == Solved(runoff)
  {
    var i := IntensityFrom(Some(runoff), Some(area), coeff).value;
    var c := NullDefault(coeff);
    assert c == FalsyDefault(coeff);
    assert i * (area * c) == runoff;
    assert area * i * c == i * (area * c);
  }

  /**
   * With a coefficient of exactly 0 the area solver computes with 1, while
   * the runoff solver keeps the 0: the area it finds gives runoff 0, not the
   * runoff it started from.
   */
  lemma ZeroCoeffBreaksRoundTrip(runoff: real, intensity: real)
    requires intensity != 0.0 && runoff != 0.0
    ensures AreaFrom(Some(runoff), Some(intensity), Some(0.0)) == Solved(runoff / intensity)
    ensures RunoffFrom(Some(runoff / intensity), Some(intensity), Some(0.0)) == Solved(0.0)
    ensures RunoffFrom(Some(runoff / intensity), Some(intensity), Some(0.0)) != Solved(runoff)
  {
    assert FalsyDefault(Some(0.0)) == 1.0;
    assert intensity * 1.0 == intensity;
  }

  // ---------------------------------------------------------------------
  // Whole-form operations

  /** After clearAll every solver reports a missing input and writes nothing. */
  lemma ClearAllThenSolve(st: Snapshot, s: Solver)
    ensures forall f :: Get(Step(s, AllCleared(st)), f) == None
    ensures PanelOf(Step(s, AllCleared(st)), GroupOfSolver(s)) == Shown(Error(s, MissingInput))
  {
    assert Solve(s, AllCleared(st)) == Failed(MissingInput);
  }

  /** Clearing one group and then the other, in either order, is clearAll. */
  lemma ClearsCommute(st: Snapshot)
    ensures SoilCleared(RunoffCleared(st)) == AllCleared(st)
  {
  }

  /** Rounding to six decimals leaves 0.8, 60 and 1 as they are. */
  lemma RoundSample()
    ensures Round6(0.8) == 0.8 && Round6(60.0) == 60.0 && Round6(1.0) == 1.0
  {
    assert ScaledRound(0.8) == 800000;
    assert ScaledRound(60.0) == 60000000;
    assert ScaledRound(1.0) == 1000000;
  }

  /** Load the example, then calcRunoffVolume: runoff = 100 × 0.01 × 0.8 = 0.8. */
  lemma ExampleThenRunoff(st: Snapshot)
    ensures Get(Step(SolveRunoff, WithExample(st)), Runoff) == Some(0.8)
    ensures PanelOf(Step(SolveRunoff, WithExample(st)), RunoffGroup) == Shown(Success(SolveRunoff, 0.8))
  {
    RoundSample();
    assert Solve(SolveRunoff, WithExample(st)) == Solved(0.8);
  }

  /** Load the example, then calcMassLoss: mass loss = 0.5 × 120 = 60. */
  lemma ExampleThenMassLoss(st: Snapshot)
    ensures Get(Step(SolveMassLoss, WithExample(st)), MassLoss) == Some(60.0)
  {
    RoundSample();
    assert Solve(SolveMassLoss, WithExample(st)) == Solved(60.0);
  }

  /**
   * calcRunoffVolume defaults only a blank coefficient: blank counts as 1,
   * while an entered 0 is used as it is and gives runoff 0.
   */
  lemma RunoffCoefficient(area: real, intensity: real)
    ensures RunoffFrom(Some(area), Some(intensity), None) == Solved(area * intensity)
    ensures RunoffFrom(Some(area), Some(intensity), Some(0.0)) == Solved(0.0)
  {
    assert area * intensity * 1.0 == area * intensity;
  }

  /** calcAreaForRunoff and calcIntensityFromRunoff treat a coefficient of 0 exactly as a blank one. */
  lemma ZeroCoeffAsBlank(runoff: Option<real>, intensity: Option<real>, area: Option<real>)
    ensures AreaFrom(runoff, intensity, Some(0.0)) == AreaFrom(runoff, intensity, None)
    ensures IntensityFrom(runoff, area, Some(0.0)) == IntensityFrom(runoff, area, None)
  {
    assert FalsyDefault(Some(0.0)) == FalsyDefault(None);
  }

  /** A zero intensity stops calcAreaForRunoff with the zero-divisor error whatever the coefficient. */
  lemma ZeroIntensityArea(st: Snapshot)
    requires st.runoff.Some? && st.intensity == Some(0.0)
    ensures Step(SolveArea, st).runoffResult == Shown(Error(SolveArea, ZeroDivisor))
    ensures forall f :: Get(Step(SolveArea, st), f) == Get(st, f)
  {
    assert Solve(SolveArea, st) == Failed(ZeroDivisor);
  }

  // ---------------------------------------------------------------------
  // Display

  /** formatNumber(0.5) is "0.5": "0.500000" loses its trailing zeros. */
  lemma FormatHalf()
    ensures FormatNumber(Some(0.5)) == Text("0.5")
  {
    FixedHalf();
    StripHalf();
  }

  /** formatNumber(120) is "120": an all-zero fraction goes with its point. */
  lemma FormatWhole()
    ensures FormatNumber(Some(120.0)) == Text("120")
  {
    FixedWhole();
    StripWhole();
  }

  lemma StripHalf()
    ensures StripZeros("0.500000") == "0.5"
  {
    assert "0" + "." + "500000" == "0.500000";
    assert !AllZeros("500000") by { assert "500000"[0] != '0'; }
    StripFixedPoint("0", "500000");
    FiveThenZeros();
    assert "0" + "." + "5" == "0.5";
  }

  lemma StripWhole()
    ensures StripZeros("120.000000") == "120"
  {
    assert "120" + "." + "000000" == "120.000000";
    assert AllZeros("000000");
    StripFixedPoint("120", "000000");
  }

  lemma FixedHalf()
    ensures ToFixed6(0.5) == "0.500000"
  {
    assert ScaledRound(0.5) == 500000;
    assert Pow10(6) == Scale;
    assert Numeral(0) == "0";
    SixDigits(500000);
  }

  lemma FixedWhole()
    ensures ToFixed6(120.0) == "120.000000"
  {
    assert ScaledRound(120.0) == 120000000;
    assert 120000000 / Scale == 120 && 120000000 % Scale == 0;
    assert Pow10(6) == Scale;
    OneTwenty();
    SixDigits(0);
  }

  lemma OneTwenty()
    ensures Numeral(120) == "120"
  {
    assert Numeral(1) == "1";
    assert Numeral(12) == "12";
  }

  /** The six-digit fractions of the two samples. */
  lemma SixDigits(k: nat)
    requires k == 0 || k == 500000
    ensures Pow10(6) == Scale
    ensures FixedWidth(k, 6) == if k == 0 then "000000" else "500000"
  {
    assert Pow10(6) == Scale;
    var d := if k == 0 then 0 else 5;
    assert FixedWidth(d, 1) == [DigitChar(d)];
    assert FixedWidth(d * 10, 2) == [DigitChar(d), '0'];
    assert FixedWidth(d * 100, 3) == [DigitChar(d), '0', '0'];
    assert FixedWidth(d * 1000, 4) == [DigitChar(d), '0', '0', '0'];
    assert FixedWidth(d * 10000, 5) == [DigitChar(d), '0', '0', '0', '0'];
  }

  lemma FiveThenZeros()
    ensures DropZeros("500000") == "5"
  {
    assert DropZeros("5") == "5";
    assert "50"[..1] == "5";
    assert "500"[..2] == "50";
    assert "5000"[..3] == "500";
    assert "50000"[..4] == "5000";
    assert "500000"[..5] == "50000";
  }
}
