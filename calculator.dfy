/**
 * The soil and runoff calculator of index.js.
 *
 * The page's seven number inputs and two result panels are the fields of the
 * class Form; each solver, clear action and the example loader is a method on
 * it that reads and writes those fields as the source reads and writes the
 * DOM. Every method is specified by a function on a Snapshot of the form, and
 * the properties the source promises are stated on those functions.
 */
module Calculator {
  import opened Wrappers
  import opened NumberFormat

  // ---------------------------------------------------------------------
  // Fields, groups and solvers

  /** The seven inputs of the form. */
  datatype Field = Flow | Concentration | MassLoss | Area | Intensity | Runoff | Coeff

  /** Each input and each solver belongs to one group, which owns one result panel. */
  datatype Group = SoilGroup | RunoffGroup

  function GroupOf(f: Field): Group
  {
    match f
    case Flow | Concentration | MassLoss => SoilGroup
    case Area | Intensity | Runoff | Coeff => RunoffGroup
  }

  /** The id of the input element that holds the field. */
  function ElementId(f: Field): string
  {
    match f
    case Flow => "flow"
    case Concentration => "concentration"
    case MassLoss => "massloss"
    case Area => "area"
    case Intensity => "intensity"
    case Runoff => "runoff"
    case Coeff => "coeff"
  }

  /** The six solvers: calcMassLoss, calcConcentration, calcFlow, calcRunoffVolume, calcAreaForRunoff, calcIntensityFromRunoff. */
  datatype Solver = SolveMassLoss | SolveConcentration | SolveFlow | SolveRunoff | SolveArea | SolveIntensity

  function GroupOfSolver(s: Solver): Group
  {
    match s
    case SolveMassLoss | SolveConcentration | SolveFlow => SoilGroup
    case SolveRunoff | SolveArea | SolveIntensity => RunoffGroup
  }

  /** The one field a solver writes; no solver writes the coefficient. */
  function OutputOf(s: Solver): (f: Field)
    ensures GroupOf(f) == GroupOfSolver(s)
    ensures f != Coeff
  {
    match s
    case SolveMassLoss => MassLoss
    case SolveConcentration => Concentration
    case SolveFlow => Flow
    case SolveRunoff => Runoff
    case SolveArea => Area
    case SolveIntensity => Intensity
  }

  /** The two inputs a solver needs, in the order it reads them; both lie in its group and neither is its output. */
  function RequiredOf(s: Solver): (p: (Field, Field))
    ensures GroupOf(p.0) == GroupOf(p.1) == GroupOfSolver(s)
    ensures p.0 != OutputOf(s) && p.1 != OutputOf(s) && p.0 != p.1
    ensures p.0 != Coeff && p.1 != Coeff
  {
    match s
    case SolveMassLoss => (Flow, Concentration)
    case SolveConcentration => (Flow, MassLoss)
    case SolveFlow => (Concentration, MassLoss)
    case SolveRunoff => (Area, Intensity)
    case SolveArea => (Runoff, Intensity)
    case SolveIntensity => (Runoff, Area)
  }

  /** The required input that must be non-zero, for the solvers that check one. */
  function DivisorOf(s: Solver): (d: Option<Field>)
    ensures d.Some? ==> d.value == RequiredOf(s).0 || d.value == RequiredOf(s).1
  {
    match s
    case SolveConcentration => Some(Flow)
    case SolveFlow => Some(Concentration)
    case SolveArea => Some(Intensity)
    case SolveIntensity => Some(Area)
    case SolveMassLoss | SolveRunoff => None
  }

  // ---------------------------------------------------------------------
  // Outcomes and panels

  /** The two errors a solver reports: a required input is blank, or the divisor is zero. */
  datatype ErrorKind = MissingInput | ZeroDivisor

  /** What a solver works out before it writes anything back. */
  datatype Outcome = Solved(value: real) | Failed(error: ErrorKind)

  /**
   * What a result panel shows: a success message that displays the computed
   * value (before rounding), or an error message, which show() wraps in the
   * error style. Message text and markup are not modelled.
   */
  datatype Message = Success(solver: Solver, value: real) | Error(solver: Solver, error: ErrorKind)

  /** A result panel: display none, or display block with a message. */
  datatype Panel = Hidden | Shown(message: Message)

  // ---------------------------------------------------------------------
  // The solvers as functions of their inputs

  /** The coefficient of calcRunoffVolume: `coeff === null ? 1 : coeff`. */
  function NullDefault(coeff: Option<real>): real
  {
    if coeff.None? then 1.0 else coeff.value
  }

  /**
   * The coefficient of calcAreaForRunoff and calcIntensityFromRunoff:
   * `getFloat("coeff") || 1`, so a coefficient of 0 also becomes 1. It is
   * never zero, and differs from NullDefault exactly at 0.
   */
  function FalsyDefault(coeff: Option<real>): (c: real)
    ensures c != 0.0
    ensures coeff == Some(0.0) ==> c == 1.0
    ensures c == NullDefault(coeff) <==> coeff != Some(0.0)
  {
    if coeff.None? || coeff.value == 0.0 then 1.0 else coeff.value
  }

  /** calcMassLoss: mass loss = flow × concentration, once both are given. */
  function MassLossFrom(flow: Option<real>, conc: Option<real>): (r: Outcome)
    ensures r == Failed(MissingInput) <==> flow.None? || conc.None?
    ensures r != Failed(ZeroDivisor)
    ensures r.Solved? ==> flow.Some? && conc.Some? && r.value == flow.value * conc.value
  {
    if flow.None? || conc.None? then Failed(MissingInput)
    else Solved(flow.value * conc.value)
  }

  /** calcConcentration: the concentration that gives the mass loss at this flow. */
  function ConcentrationFrom(flow: Option<real>, mass: Option<real>): (r: Outcome)
    ensures r == Failed(MissingInput) <==> flow.None? || mass.None?
    ensures r == Failed(ZeroDivisor) <==> flow == Some(0.0) && mass.Some?
    ensures r.Solved? ==>
              flow.Some? && mass.Some? && flow.value != 0.0 &&
              r.value * flow.value == mass.value && flow.value * r.value == mass.value
  {
    if flow.None? || mass.None? then Failed(MissingInput)
    else if flow.value == 0.0 then Failed(ZeroDivisor)
    else Solved(mass.value / flow.value)
  }

  /** calcFlow: the flow that gives the mass loss at this concentration. */
  function FlowFrom(conc: Option<real>, mass: Option<real>): (r: Outcome)
    ensures r == Failed(MissingInput) <==> conc.None? || mass.None?
    ensures r == Failed(ZeroDivisor) <==> conc == Some(0.0) && mass.Some?
    ensures r.Solved? ==>
              conc.Some? && mass.Some? && conc.value != 0.0 &&
              r.value * conc.value == mass.value && conc.value * r.value == mass.value
  {
    if conc.None? || mass.None? then Failed(MissingInput)
    else if conc.value == 0.0 then Failed(ZeroDivisor)
    else Solved(mass.value / conc.value)
  }

  /** calcRunoffVolume: runoff = area × intensity × c, with c = 1 only when the coefficient is blank. */
  function RunoffFrom(area: Option<real>, intensity: Option<real>, coeff: Option<real>): (r: Outcome)
    ensures r == Failed(MissingInput) <==> area.None? || intensity.None?
    ensures r != Failed(ZeroDivisor)
    ensures r.Solved? ==>
              area.Some? && intensity.Some? &&
              r.value == area.value * intensity.value * NullDefault(coeff)
  {
    if area.None? || intensity.None? then Failed(MissingInput)
    else Solved(area.value * intensity.value * NullDefault(coeff))
  }

  /** calcAreaForRunoff: the area that yields the runoff at this intensity and (falsy-defaulted) coefficient. */
  function AreaFrom(runoff: Option<real>, intensity: Option<real>, coeff: Option<real>): (r: Outcome)
    ensures r == Failed(MissingInput) <==> runoff.None? || intensity.None?
    ensures r == Failed(ZeroDivisor) <==> intensity == Some(0.0) && runoff.Some?
    ensures r.Solved? ==>
              runoff.Some? && intensity.Some? && intensity.value != 0.0 &&
              r.value * (intensity.value * FalsyDefault(coeff)) == runoff.value
  {
    if runoff.None? || intensity.None? then Failed(MissingInput)
    else
      var c := FalsyDefault(coeff);
      if intensity.value == 0.0 then Failed(ZeroDivisor)
      else Solved(runoff.value / (intensity.value * c))
  }

  /** calcIntensityFromRunoff: the intensity that yields the runoff over this area and (falsy-defaulted) coefficient. */
  function IntensityFrom(runoff: Option<real>, area: Option<real>, coeff: Option<real>): (r: Outcome)
    ensures r == Failed(MissingInput) <==> runoff.None? || area.None?
    ensures r == Failed(ZeroDivisor) <==> area == Some(0.0) && runoff.Some?
    ensures r.Solved? ==>
              runoff.Some? && area.Some? && area.value != 0.0 &&
              r.value * (area.value * FalsyDefault(coeff)) == runoff.value
  {
    if runoff.None? || area.None? then Failed(MissingInput)
    else
      var c := FalsyDefault(coeff);
      if area.value == 0.0 then Failed(ZeroDivisor)
      else Solved(runoff.value / (area.value * c))
  }

  // ---------------------------------------------------------------------
  // The whole form as a value

  /** The values of the seven inputs (None when blank) and the two panels. */
  datatype Snapshot = Snapshot(
    flow: Option<real>, concentration: Option<real>, massloss: Option<real>,
    area: Option<real>, intensity: Option<real>, runoff: Option<real>, coeff: Option<real>,
    soilResult: Panel, runoffResult: Panel)

  /** Every input blank and both panels hidden. */
  const Blank: Snapshot :=
    Snapshot(None, None, None, None, None, None, None, Hidden, Hidden)

  function Get(st: Snapshot, f: Field): Option<real>
  {
    match f
    case Flow => st.flow
    case Concentration => st.concentration
    case MassLoss => st.massloss
    case Area => st.area
    case Intensity => st.intensity
    case Runoff => st.runoff
    case Coeff => st.coeff
  }

  /** Writing one input: that input has the new value, every other input and both panels keep theirs. */
  function Put(st: Snapshot, f: Field, v: Option<real>): (r: Snapshot)
    ensures Get(r, f) == v
    ensures forall g :: g != f ==> Get(r, g) == Get(st, g)
    ensures r.soilResult == st.soilResult && r.runoffResult == st.runoffResult
  {
    match f
    case Flow => st.(flow := v)
    case Concentration => st.(concentration := v)
    case MassLoss => st.(massloss := v)
    case Area => st.(area := v)
    case Intensity => st.(intensity := v)
    case Runoff => st.(runoff := v)
    case Coeff => st.(coeff := v)
  }

  function PanelOf(st: Snapshot, g: Group): Panel
  {
    match g
    case SoilGroup => st.soilResult
    case RunoffGroup => st.runoffResult
  }

  /** show(): one panel gets the new content; the inputs and the other panel are untouched. */
  function WithPanel(st: Snapshot, g: Group, p: Panel): (r: Snapshot)
    ensures PanelOf(r, g) == p
    ensures forall h :: h != g ==> PanelOf(r, h) == PanelOf(st, h)
    ensures forall f :: Get(r, f) == Get(st, f)
  {
    match g
    case SoilGroup => st.(soilResult := p)
    case RunoffGroup => st.(runoffResult := p)
  }

  /**
   * What a solver works out from the current inputs. It reports a missing
   * input exactly when one of its two required inputs is blank, and only
   * when both are present does it report a zero divisor.
   */
  function Solve(s: Solver, st: Snapshot): (r: Outcome)
    ensures r == Failed(MissingInput) <==>
              Get(st, RequiredOf(s).0).None? || Get(st, RequiredOf(s).1).None?
    ensures r == Failed(ZeroDivisor) <==>
              Get(st, RequiredOf(s).0).Some? && Get(st, RequiredOf(s).1).Some? &&
              DivisorOf(s).Some? && Get(st, DivisorOf(s).value) == Some(0.0)
  {
    match s
    case SolveMassLoss => MassLossFrom(st.flow, st.concentration)
    case SolveConcentration => ConcentrationFrom(st.flow, st.massloss)
    case SolveFlow => FlowFrom(st.concentration, st.massloss)
    case SolveRunoff => RunoffFrom(st.area, st.intensity, st.coeff)
    case SolveArea => AreaFrom(st.runoff, st.intensity, st.coeff)
    case SolveIntensity => IntensityFrom(st.runoff, st.area, st.coeff)
  }

  /**
   * One solver run on the form. It changes no input but its own output, and
   * that one only on success, to the computed value rounded to six decimals.
   * It shows its group's panel: the error it met, or the value it computed
   * (before rounding), and leaves the other group's panel alone.
   */
  function Step(s: Solver, st: Snapshot): (r: Snapshot)
    ensures forall f :: f != OutputOf(s) ==> Get(r, f) == Get(st, f)
    ensures Solve(s, st).Failed? ==> forall f :: Get(r, f) == Get(st, f)
    ensures Solve(s, st).Solved? ==> Get(r, OutputOf(s)) == Some(Round6(Solve(s, st).value))
    ensures PanelOf(r, GroupOfSolver(s)).Shown?
    ensures PanelOf(r, GroupOfSolver(s)).message.solver == s
    ensures PanelOf(r, GroupOfSolver(s)).message.Error? <==> Solve(s, st).Failed?
    ensures Solve(s, st).Failed? ==> PanelOf(r, GroupOfSolver(s)) == Shown(Error(s, Solve(s, st).error))
    ensures Solve(s, st).Solved? ==> PanelOf(r, GroupOfSolver(s)) == Shown(Success(s, Solve(s, st).value))
    ensures forall g :: g != GroupOfSolver(s) ==> PanelOf(r, g) == PanelOf(st, g)
  {
    match Solve(s, st)
    case Failed(e) => WithPanel(st, GroupOfSolver(s), Shown(Error(s, e)))
    case Solved(v) => WithPanel(Put(st, OutputOf(s), Some(Round6(v))), GroupOfSolver(s), Shown(Success(s, v)))
  }

  /** clearSoilInputs: the soil inputs become blank and the soil panel hidden; the runoff group is untouched. */
  function SoilCleared(st: Snapshot): (r: Snapshot)
    ensures forall f :: Get(r, f) == if GroupOf(f) == SoilGroup then None else Get(st, f)
    ensures PanelOf(r, SoilGroup) == Hidden && PanelOf(r, RunoffGroup) == PanelOf(st, RunoffGroup)
  {
    st.(flow := None, concentration := None, massloss := None, soilResult := Hidden)
  }

  /** clearRunoffInputs: the runoff inputs become blank and the runoff panel hidden; the soil group is untouched. */
  function RunoffCleared(st: Snapshot): (r: Snapshot)
    ensures forall f :: Get(r, f) == if GroupOf(f) == RunoffGroup then None else Get(st, f)
    ensures PanelOf(r, RunoffGroup) == Hidden && PanelOf(r, SoilGroup) == PanelOf(st, SoilGroup)
  {
    st.(area := None, intensity := None, runoff := None, coeff := None, runoffResult := Hidden)
  }

  /** clearAll: both clears in turn, which leaves the blank form whatever the form held. */
  function AllCleared(st: Snapshot): (r: Snapshot)
    ensures r == Blank
  {
    RunoffCleared(SoilCleared(st))
  }

  /**
   * exampleValues: fixed sample inputs, mass loss blank, both panels hidden.
   * The runoff input keeps whatever it held.
   */
  function WithExample(st: Snapshot): (r: Snapshot)
    ensures Get(r, Flow) == Some(0.5) && Get(r, Concentration) == Some(120.0)
    ensures Get(r, Area) == Some(100.0) && Get(r, Intensity) == Some(0.01) && Get(r, Coeff) == Some(0.8)
    ensures Get(r, MassLoss) == None
    ensures Get(r, Runoff) == Get(st, Runoff)
    ensures PanelOf(r, SoilGroup) == Hidden && PanelOf(r, RunoffGroup) == Hidden
  {
    st.(flow := Some(0.5), concentration := Some(120.0), massloss := None,
        area := Some(100.0), intensity := Some(0.01), coeff := Some(0.8),
        soilResult := Hidden, runoffResult := Hidden)
  }

  const SoilIds: seq<string> := ["flow", "concentration", "massloss"]
  const RunoffIds: seq<string> := ["area", "intensity", "runoff", "coeff"]

  /**
   * The keydown listener: on Enter, focus in a soil input runs calcMassLoss
   * and focus in a runoff input runs calcRunoffVolume; any other key or
   * focus changes nothing.
   */
  function KeyDown(key: string, active: string, st: Snapshot): (r: Snapshot)
    ensures (key != "Enter" || forall f :: ElementId(f) != active) ==> r == st
    ensures forall f :: key == "Enter" && ElementId(f) == active ==>
              r == Step(if GroupOf(f) == SoilGroup then SolveMassLoss else SolveRunoff, st)
  {
    FocusedGroup(active);
    if key != "Enter" then st
    else
      var st' := if active in SoilIds then Step(SolveMassLoss, st) else st;
      if active in RunoffIds then Step(SolveRunoff, st') else st'
  }

  /** The id lists of the listener name exactly the inputs of each group. */
  lemma FocusedGroup(active: string)
    ensures active in SoilIds <==> exists f :: ElementId(f) == active && GroupOf(f) == SoilGroup
    ensures active in RunoffIds <==> exists f :: ElementId(f) == active && GroupOf(f) == RunoffGroup
  {
    if active == "flow" { assert ElementId(Flow) == active; }
    if active == "concentration" { assert ElementId(Concentration) == active; }
    if active == "massloss" { assert ElementId(MassLoss) == active; }
    if active == "area" { assert ElementId(Area) == active; }
    if active == "intensity" { assert ElementId(Intensity) == active; }
    if active == "runoff" { assert ElementId(Runoff) == active; }
    if active == "coeff" { assert ElementId(Coeff) == active; }
  }

  // ---------------------------------------------------------------------
  // The page

  /** The form on the page: the seven inputs and the two result panels. */
  class Form {
    var flow: Option<real>
    var concentration: Option<real>
    var massloss: Option<real>
    var area: Option<real>
    var intensity: Option<real>
    var runoff: Option<real>
    var coeff: Option<real>
    var soilResult: Panel
    var runoffResult: Panel

    function State(): Snapshot
      reads this
    {
      Snapshot(flow, concentration, massloss, area, intensity, runoff, coeff, soilResult, runoffResult)
    }

    /** show(): make the group's panel visible with the message. */
    method Show(g: Group, m: Message)
      modifies this
      ensures State() == WithPanel(old(State()), g, Shown(m))
    {
      match g
      case SoilGroup => soilResult := Shown(m);
      case RunoffGroup => runoffResult := Shown(m);
    }

    method CalcMassLoss()
      modifies this
      ensures State() == Step(SolveMassLoss, old(State()))
    {
      var f := flow;
      var c := concentration;
      if f.None? || c.None? {
        Show(SoilGroup, Error(SolveMassLoss, MissingInput));
        return;
      }
      var mass := f.value * c.value;
      ghost var st0 := State();
      assert Solve(SolveMassLoss, st0) == Solved(mass);
      massloss := Some(Round6(mass));
      assert State() == Put(st0, MassLoss, Some(Round6(mass)));
      Show(SoilGroup, Success(SolveMassLoss, mass));
    }

    method CalcConcentration()
      modifies this
      ensures State() == Step(SolveConcentration, old(State()))
    {
      var f := flow;
      var mass := massloss;
      if f.None? || mass.None? {
        Show(SoilGroup, Error(SolveConcentration, MissingInput));
        return;
      }
      if f.value == 0.0 {
        Show(SoilGroup, Error(SolveConcentration, ZeroDivisor));
        return;
      }
      var conc := mass.value / f.value;
      concentration := Some(Round6(conc));
      Show(SoilGroup, Success(SolveConcentration, conc));
    }

    method CalcFlow()
      modifies this
      ensures State() == Step(SolveFlow, old(State()))
    {
      var c := concentration;
      var mass := massloss;
      if c.None? || mass.None? {
        Show(SoilGroup, Error(SolveFlow, MissingInput));
        return;
      }
      if c.value == 0.0 {
        Show(SoilGroup, Error(SolveFlow, ZeroDivisor));
        return;
      }
      var f := mass.value / c.value;
      flow := Some(Round6(f));
      Show(SoilGroup, Success(SolveFlow, f));
    }

    method CalcRunoffVolume()
      modifies this
      ensures State() == Step(SolveRunoff, old(State()))
    {
      var a := area;
      var i := intensity;
      var k := coeff;
      if a.None? || i.None? {
        Show(RunoffGroup, Error(SolveRunoff, MissingInput));
        return;
      }
      var c := if k.None? then 1.0 else k.value;
      var volume := a.value * i.value * c;
      ghost var st0 := State();
      assert Solve(SolveRunoff, st0) == Solved(volume);
      runoff := Some(Round6(volume));
      assert State() == Put(st0, Runoff, Some(Round6(volume)));
      Show(RunoffGroup, Success(SolveRunoff, volume));
    }

    method CalcAreaForRunoff()
      modifies this
      ensures State() == Step(SolveArea, old(State()))
    {
      var r := runoff;
      var i := intensity;
      if r.None? || i.None? {
        Show(RunoffGroup, Error(SolveArea, MissingInput));
        return;
      }
      var c := if coeff.None? || coeff.value == 0.0 then 1.0 else coeff.value;
      if i.value == 0.0 {
        Show(RunoffGroup, Error(SolveArea, ZeroDivisor));
        return;
      }
      assert c == FalsyDefault(coeff);
      var a := r.value / (i.value * c);
      ghost var st0 := State();
      assert Solve(SolveArea, st0) == Solved(a);
      area := Some(Round6(a));
      assert State() == Put(st0, Area, Some(Round6(a)));
      Show(RunoffGroup, Success(SolveArea, a));
    }

    method CalcIntensityFromRunoff()
      modifies this
      ensures State() == Step(SolveIntensity, old(State()))
    {
      var r := runoff;
      var a := area;
      if r.None? || a.None? {
        Show(RunoffGroup, Error(SolveIntensity, MissingInput));
        return;
      }
      var c := if coeff.None? || coeff.value == 0.0 then 1.0 else coeff.value;
      if a.value == 0.0 {
        Show(RunoffGroup, Error(SolveIntensity, ZeroDivisor));
        return;
      }
      assert c == FalsyDefault(coeff);
      var i := r.value / (a.value * c);
      ghost var st0 := State();
      assert Solve(SolveIntensity, st0) == Solved(i);
      intensity := Some(Round6(i));
      assert State() == Put(st0, Intensity, Some(Round6(i)));
      Show(RunoffGroup, Success(SolveIntensity, i));
    }

    method ClearSoilInputs()
      modifies this
      ensures State() == SoilCleared(old(State()))
    {
      flow := None;
      concentration := None;
      massloss := None;
      soilResult := Hidden;
    }

    method ClearRunoffInputs()
      modifies this
      ensures State() == RunoffCleared(old(State()))
    {
      area := None;
      intensity := None;
      runoff := None;
      coeff := None;
      runoffResult := Hidden;
    }

    method ClearAll()
      modifies this
      ensures State() == AllCleared(old(State()))
    {
      ClearSoilInputs();
      ClearRunoffInputs();
    }

    method ExampleValues()
      modifies this
      ensures State() == WithExample(old(State()))
    {
      flow := Some(0.5);
      concentration := Some(120.0);
      massloss := None;
      area := Some(100.0);
      intensity := Some(0.01);
      coeff := Some(0.8);
      soilResult := Hidden;
      runoffResult := Hidden;
    }

    /** The document's keydown listener, with the key pressed and the id of the focused element. */
    method OnKeyDown(key: string, active: string)
      modifies this
      ensures State() == KeyDown(key, active, old(State()))
    {
      if key == "Enter" {
        if active in SoilIds {
          CalcMassLoss();
        }
        if active in RunoffIds {
          CalcRunoffVolume();
        }
      }
    }
  }
}
