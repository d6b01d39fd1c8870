/**
 * The coupled link-segment/muscle model: a dynamical system of generalized
 * coordinates driven by the torques of skeletal muscles, advanced by explicit
 * Euler steps of a fixed length with a shortened last step.
 *
 * The dynamical system, the muscles and the functions of the generalized
 * coordinates are foreign code: a muscle is a value carrying its own transition
 * and force functions, a coordinate function is a Dafny function, and the
 * dynamical system is a small class whose state the model overwrites.
 */
module LinkSegment {
  import opened Common
  import opened StateNames
  import MatrixUtil

  /** A Function of the generalized coordinates (a joint coordinate, a muscle length or a moment arm). */
  type CoordFn = seq<real> -> real

  /**
   * A skeletal muscle: its current length, its internal state, how `run(t0, t1)`
   * moves the internal state at a given length, and the force `getForce` reports.
   */
  datatype Muscle = Muscle(
    length: real,
    internal: seq<real>,
    advance: (seq<real>, real, real, real) -> seq<real>,
    force: (seq<real>, real) -> real)

  /** setLength */
  function SetLength(m: Muscle, length: real): Muscle
  {
    m.(length := length)
  }

  /** run(t0, t1) */
  function RunMuscle(m: Muscle, t0: real, t1: real): Muscle
  {
    m.(internal := m.advance(m.internal, m.length, t0, t1))
  }

  /** getForce */
  function Force(m: Muscle): real
  {
    m.force(m.internal, m.length)
  }

  /** The dynamical system of the generalized coordinates: dx/dt = f(x, t, u). */
  class DynamicalSystem {
    var state: seq<real>
    const inputDimension: nat
    const f: (seq<real>, real, seq<real>) -> seq<real>

    constructor (initial: seq<real>, inputDimension: nat, f: (seq<real>, real, seq<real>) -> seq<real>)
      ensures state == initial && this.inputDimension == inputDimension && this.f == f
    {
      state := initial;
      this.inputDimension := inputDimension;
      this.f := f;
    }

    /** setState */
    method SetState(x: seq<real>)
      modifies this
      ensures state == x
    {
      state := x;
    }
  }

  /** The exceptions the model throws, with their messages. */
  datatype ModelException =
    | IllegalArgument(message: string)
    | Structural(message: string)
    | Simulation(message: string)

  const JointArityMessage: string :=
    "Either 2 or 3 functions of generalized coordinates are needed to define a joint: (x,y) or (x.y,z)"
  const NoOriginsMessage: string :=
    "A LinkSegmentModel itself has no Origins (neural output arises from component SkeletalMuscles)"
  const NoTerminationsMessage: string :=
    "A LinkSegmentModel itself has no Terminations (neural input is to component SkeletalMuscles)"

  /** The units of a history's dimensions. */
  datatype Unit = Metres | Unknown

  /** A time series: sample times, one vector of values per time, one unit per dimension. */
  datatype TimeSeries = TimeSeries(times: seq<real>, values: seq<seq<real>>, units: seq<Unit>)

  /** Origins and terminations, of which the model has none. */
  datatype Port = Port(name: string)

  // ---------------------------------------------------------------------------
  // Value view of one Euler step
  // ---------------------------------------------------------------------------

  /** What a step reads and writes: the coordinates, the muscle slots and the time. */
  datatype Plant = Plant(state: seq<real>, muscles: seq<Option<Muscle>>, time: real)

  /** What a step uses but never changes: the dynamics and the length and moment-arm slots. */
  datatype Coupling = Coupling(
    f: (seq<real>, real, seq<real>) -> seq<real>,
    lengths: seq<Option<CoordFn>>,
    momentArms: seq<Option<CoordFn>>)

  /** Every input has its muscle, length function and moment-arm function defined. */
  predicate Ready(c: Coupling, p: Plant)
  {
    && |p.muscles| == |c.lengths| == |c.momentArms|
    && forall i | 0 <= i < |p.muscles| :: p.muscles[i].Some? && c.lengths[i].Some? && c.momentArms[i].Some?
  }

  /** Muscle i after its length is set from the coordinates and it is run over [t, t + h]. */
  function MuscleAfter(c: Coupling, p: Plant, t: real, h: real, i: nat): Muscle
    requires Ready(c, p) && i < |p.muscles|
  {
    RunMuscle(SetLength(p.muscles[i].value, c.lengths[i].value(p.state)), t, t + h)
  }

  /** Torque i: the force of the advanced muscle times its moment arm at the coordinates. */
  function Torque(c: Coupling, p: Plant, t: real, h: real, i: nat): real
    requires Ready(c, p) && i < |p.muscles|
  {
    Force(MuscleAfter(c, p, t, h, i)) * c.momentArms[i].value(p.state)
  }

  function Torques(c: Coupling, p: Plant, t: real, h: real): seq<real>
    requires Ready(c, p)
  {
    seq(|p.muscles|, i requires 0 <= i < |p.muscles| => Torque(c, p, t, h, i))
  }

  /** How a step or a run ended: normally, or with the exception raised while adding the state increment. */
  datatype Outcome = Completed(plant: Plant) | Aborted(plant: Plant, cause: MatrixUtil.Mismatch)

  /**
   * One explicit Euler step of length h from time t: every muscle is advanced, then
   * the state moves by h f(x, t, torques) and the time by h. If f's result does not
   * match the state's length, the vector sum throws after the muscles have moved.
   */
  function StepSpec(c: Coupling, p: Plant, t: real, h: real): (r: Outcome)
    requires Ready(c, p)
    ensures Ready(c, r.plant)
    ensures r.plant.muscles == seq(|p.muscles|, i requires 0 <= i < |p.muscles| => Some(MuscleAfter(c, p, t, h, i)))
    ensures r.Completed? <==> |c.f(p.state, t, Torques(c, p, t, h))| == |p.state|
    ensures r.Completed? ==> && |r.plant.state| == |p.state|
                             && r.plant.time == p.time + h
                             && forall k | 0 <= k < |p.state| ::
                                  r.plant.state[k] == p.state[k] + c.f(p.state, t, Torques(c, p, t, h))[k] * h
    ensures r.Aborted? ==> r.plant.state == p.state && r.plant.time == p.time
  {
    var muscles := seq(|p.muscles|, i requires 0 <= i < |p.muscles| => Some(MuscleAfter(c, p, t, h, i)));
    var dxdt := c.f(p.state, t, Torques(c, p, t, h));
    if |dxdt| != |p.state| then
      Aborted(Plant(p.state, muscles, p.time), MatrixUtil.VectorLengths)
    else
      Completed(Plant(MatrixUtil.Plus(p.state, MatrixUtil.Scaled(dxdt, h)), muscles, p.time + h))
  }

  // ---------------------------------------------------------------------------
  // The run schedule
  // ---------------------------------------------------------------------------

  /** The length of the step `run` takes at time t: the rest of the run once it is within 1.1 steps of the end. */
  function StepLength(t: real, dt: real, end: real): real
  {
    if t + dt * 1.1 >= end then end - t else dt
  }

  /** An upper bound on the steps left: the termination measure of `run`'s loop. */
  function Remaining(t: real, dt: real, end: real): nat
    requires dt > 0.0
  {
    if t >= end then 0 else ((end - t) / dt).Floor + 1
  }

  lemma RemainingDecreases(t: real, dt: real, end: real)
    requires dt > 0.0 && t < end
    ensures Remaining(t + StepLength(t, dt, end), dt, end) < Remaining(t, dt, end)
  {
    if t + dt * 1.1 < end {
      var x := (end - t) / dt;
      assert (end - (t + dt)) / dt == x - dt / dt;
      assert dt / dt == 1.0;
      assert (x - 1.0).Floor == x.Floor - 1;
    }
  }

  /** The step lengths `run(t, end)` takes with time step dt, in order. */
  function Schedule(t: real, dt: real, end: real): seq<real>
    requires dt > 0.0
    decreases Remaining(t, dt, end)
  {
    if t < end then
      RemainingDecreases(t, dt, end);
      [StepLength(t, dt, end)] + Schedule(t + StepLength(t, dt, end), dt, end)
    else
      []
  }

  function Sum(hs: seq<real>): real
  {
    if |hs| == 0 then 0.0 else hs[0] + Sum(hs[1..])
  }

  /** The steps of a run cover exactly the interval from its start to its end. */
  lemma {:induction false} ScheduleCovers(t: real, dt: real, end: real)
    requires dt > 0.0
    ensures t < end ==> t + Sum(Schedule(t, dt, end)) == end
    ensures t >= end ==> Schedule(t, dt, end) == []
    decreases Remaining(t, dt, end)
  {
    if t < end {
      var h := StepLength(t, dt, end);
      RemainingDecreases(t, dt, end);
      ScheduleCovers(t + h, dt, end);
      assert Schedule(t, dt, end)[1..] == Schedule(t + h, dt, end);
    }
  }

  /**
   * Every step but the last is a full time step; the last is positive and at most
   * 1.1 time steps, and longer than a tenth of a time step when a full step precedes it.
   */
  lemma {:induction false} ScheduleShape(t: real, dt: real, end: real)
    requires dt > 0.0 && t < end
    ensures var hs := Schedule(t, dt, end);
      && |hs| > 0
      && (forall k | 0 <= k < |hs| - 1 :: hs[k] == dt)
      && 0.0 < hs[|hs| - 1] <= dt * 1.1
      && (|hs| > 1 ==> hs[|hs| - 1] > dt * 0.1)
    decreases Remaining(t, dt, end)
  {
    var hs := Schedule(t, dt, end);
    var h := StepLength(t, dt, end);
    RemainingDecreases(t, dt, end);
    if t + dt * 1.1 >= end {
      ScheduleCovers(t + h, dt, end);
      assert hs == [end - t];
    } else {
      var rest := Schedule(t + dt, dt, end);
      ScheduleShape(t + dt, dt, end);
      assert hs == [dt] + rest;
      if |rest| == 1 {
        assert t + dt + dt * 1.1 >= end;
        assert rest[0] == end - (t + dt);
      }
    }
  }

  /** A run from 0 to 1 with time step 0.3 takes three full steps and one of 0.1. */
  lemma ScheduleExample()
    ensures Schedule(0.0, 0.3, 1.0) == [0.3, 0.3, 0.3, 0.1]
  {
    assert Schedule(1.0, 0.3, 1.0) == [];
    assert Schedule(0.9, 0.3, 1.0) == [0.1];
    assert Schedule(0.6, 0.3, 1.0) == [0.3, 0.1];
    assert Schedule(0.3, 0.3, 1.0) == [0.3, 0.3, 0.1];
  }

  /** With a time step of 0 a run short of its end takes steps of length 0: its time never advances. */
  lemma ZeroStepStalls(t: real, end: real)
    requires t < end
    ensures StepLength(t, 0.0, end) == 0.0
    ensures t + StepLength(t, 0.0, end) == t
  {
  }

  /** The outcome of taking the steps hs in turn from p, each starting at the plant's time. */
  function Simulate(c: Coupling, p: Plant, hs: seq<real>): Outcome
    requires Ready(c, p)
    decreases |hs|
  {
    if |hs| == 0 then
      Completed(p)
    else
      match StepSpec(c, p, p.time, hs[0])
      case Completed(q) => Simulate(c, q, hs[1..])
      case Aborted(q, cause) => Aborted(q, cause)
  }

  /** A run that completes leaves the coordinates' length alone and advances the time by the steps' total. */
  lemma {:induction false} SimulateAdvancesTime(c: Coupling, p: Plant, hs: seq<real>)
    requires Ready(c, p)
    ensures Ready(c, Simulate(c, p, hs).plant)
    ensures Simulate(c, p, hs).Completed? ==>
      Simulate(c, p, hs).plant.time == p.time + Sum(hs) && |Simulate(c, p, hs).plant.state| == |p.state|
    decreases |hs|
  {
    if |hs| > 0 {
      var r := StepSpec(c, p, p.time, hs[0]);
      if r.Completed? {
        SimulateAdvancesTime(c, r.plant, hs[1..]);
      }
    }
  }

  // ---------------------------------------------------------------------------
  // Value view of the history
  // ---------------------------------------------------------------------------

  /** Every "p<digits>" name that is not a joint selects an existing coordinate. */
  predicate Probeable(joints: map<string, seq<CoordFn>>, state: seq<real>, name: string)
  {
    name in joints || !IsCoordinateName(name) || CoordinateIndex(name) < |state|
  }

  /**
   * getHistory: a joint name gives one sample of the joint's coordinates in metres;
   * otherwise "p<digits>" gives one sample of that generalized coordinate; any other
   * name is unknown.
   */
  function HistorySpec(joints: map<string, seq<CoordFn>>, state: seq<real>, time: real, name: string): Result<TimeSeries, ModelException>
    requires Probeable(joints, state, name)
  {
    if name in joints then
      var definition := joints[name];
      Success(TimeSeries([time],
        [seq(|definition|, i requires 0 <= i < |definition| => definition[i](state))],
        seq(|definition|, _ => Metres)))
    else if IsCoordinateName(name) then
      Success(TimeSeries([time], [[state[CoordinateIndex(name)]]], [Unknown]))
    else
      Failure(Simulation("The state " + name + " is unknown"))
  }

  /** The states registered at construction: "q<i>" for each generalized coordinate i below n. */
  function CoordinateStates(n: nat): map<string, string>
  {
    if n == 0 then map[] else CoordinateStates(n - 1)["q" + Numeral(n - 1) := "Generalized coordinate " + Numeral(n - 1)]
  }

  // ---------------------------------------------------------------------------
  // The model
  // ---------------------------------------------------------------------------

  class LinkSegmentModel {
    var myName: Option<string>
    const myDynamics: DynamicalSystem
    var myJointDefinitions: map<string, seq<CoordFn>>
    const myMuscles: array<Option<Muscle>>
    const myLengths: array<Option<CoordFn>>
    const myMomentArms: array<Option<CoordFn>>
    var myStates: map<string, string>
    var myTimeStep: real
    var myTime: real

    /** One slot per input of the dynamics in each of the three arrays. */
    ghost predicate Valid()
      reads this
    {
      && myMuscles.Length == myDynamics.inputDimension
      && myLengths.Length == myDynamics.inputDimension
      && myMomentArms.Length == myDynamics.inputDimension
      && myLengths != myMomentArms
    }

    ghost function Config(): Coupling
      reads this, myLengths, myMomentArms
    {
      Coupling(myDynamics.f, myLengths[..], myMomentArms[..])
    }

    ghost function Snapshot(): Plant
      reads this, myDynamics, myMuscles
    {
      Plant(myDynamics.state, myMuscles[..], myTime)
    }

    /** The fields a simulation step never touches. */
    ghost function Registry(): (Option<string>, map<string, seq<CoordFn>>, map<string, string>, real)
      reads this
    {
      (myName, myJointDefinitions, myStates, myTimeStep)
    }

    /**
     * The Java constructor: sizes the three slot arrays to the dynamics' input
     * dimension and registers "q<i>" for each coordinate, but stores neither the
     * name nor the time step, so the time step stays 0.
     */
    constructor (name: string, dynamics: DynamicalSystem, timeStep: real)
      ensures Valid()
      ensures myDynamics == dynamics && fresh(myMuscles) && fresh(myLengths) && fresh(myMomentArms)
      ensures forall i | 0 <= i < myMuscles.Length :: myMuscles[i] == None && myLengths[i] == None && myMomentArms[i] == None
      ensures myJointDefinitions == map[] && myStates == CoordinateStates(|dynamics.state|)
      ensures myName == None && myTimeStep == 0.0 && myTime == 0.0
    {
      myDynamics := dynamics;
      myMuscles := new Option<Muscle>[dynamics.inputDimension](_ => None);
      myLengths := new Option<CoordFn>[dynamics.inputDimension](_ => None);
      myMomentArms := new Option<CoordFn>[dynamics.inputDimension](_ => None);
      myJointDefinitions := map[];
      myName := None;
      myTimeStep := 0.0;
      myTime := 0.0;
      var states := map[];
      for i := 0 to |dynamics.state|
        invariant states == CoordinateStates(i)
      {
        states := states["q" + Numeral(i) := "Generalized coordinate " + Numeral(i)];
      }
      myStates := states;
    }

    /** The constructor as its parameters describe it: the name and the time step are kept. */
    constructor Configured(name: string, dynamics: DynamicalSystem, timeStep: real)
      ensures Valid()
      ensures myDynamics == dynamics && fresh(myMuscles) && fresh(myLengths) && fresh(myMomentArms)
      ensures forall i | 0 <= i < myMuscles.Length :: myMuscles[i] == None && myLengths[i] == None && myMomentArms[i] == None
      ensures myJointDefinitions == map[] && myStates == CoordinateStates(|dynamics.state|)
      ensures myName == Some(name) && myTimeStep == timeStep && myTime == 0.0
    {
      myDynamics := dynamics;
      myMuscles := new Option<Muscle>[dynamics.inputDimension](_ => None);
      myLengths := new Option<CoordFn>[dynamics.inputDimension](_ => None);
      myMomentArms := new Option<CoordFn>[dynamics.inputDimension](_ => None);
      myJointDefinitions := map[];
      myName := Some(name);
      myTimeStep := timeStep;
      myTime := 0.0;
      var states := map[];
      for i := 0 to |dynamics.state|
        invariant states == CoordinateStates(i)
      {
        states := states["q" + Numeral(i) := "Generalized coordinate " + Numeral(i)];
      }
      myStates := states;
    }

    /** defineJoint: a joint needs 2 or 3 coordinate functions; it is then registered and listed. */
    method DefineJoint(name: string, definition: seq<CoordFn>) returns (error: Option<ModelException>)
      modifies this
      ensures error.Some? <==> |definition| != 2 && |definition| != 3
      ensures error.Some? ==> error.value == IllegalArgument(JointArityMessage)
      ensures error.Some? ==> myJointDefinitions == old(myJointDefinitions) && myStates == old(myStates)
      ensures error.None? ==> myJointDefinitions == old(myJointDefinitions)[name := definition]
      ensures error.None? ==> myStates == old(myStates)[name := "Joint coordinates for " + name]
      ensures myName == old(myName) && myTimeStep == old(myTimeStep) && myTime == old(myTime)
    {
      if |definition| != 2 && |definition| != 3 {
        return Some(IllegalArgument(JointArityMessage));
      }
      myJointDefinitions := myJointDefinitions[name := definition];
      myStates := myStates[name := "Joint coordinates for " + name];
      return None;
    }

    /**
     * defineMuscle: fills slot `input` of the three arrays; an input past the end
     * throws ArrayIndexOutOfBoundsException and changes nothing.
     */
    method DefineMuscle(input: nat, muscle: Muscle, length: CoordFn, momentArm: CoordFn) returns (outOfBounds: bool)
      requires Valid()
      modifies myMuscles, myLengths, myMomentArms
      ensures outOfBounds <==> input >= myMuscles.Length
      ensures outOfBounds ==> unchanged(myMuscles) && unchanged(myLengths) && unchanged(myMomentArms)
      ensures !outOfBounds ==> && myMuscles[..] == old(myMuscles[..])[input := Some(muscle)]
                               && myLengths[..] == old(myLengths[..])[input := Some(length)]
                               && myMomentArms[..] == old(myMomentArms[..])[input := Some(momentArm)]
    {
      if input >= myMuscles.Length {
        return true;
      }
      myMuscles[input] := Some(muscle);
      myLengths[input] := Some(length);
      myMomentArms[input] := Some(momentArm);
      return false;
    }

    /** getOrigin: the model has no origins of its own. */
    function GetOrigin(name: string): (r: Result<Port, ModelException>)
      ensures r == Failure(Structural(NoOriginsMessage))
    {
      Failure(Structural(NoOriginsMessage))
    }

    /** getOrigins */
    function GetOrigins(): (r: seq<Port>)
      ensures r == []
    {
      []
    }

    /** getTermination: the model has no terminations of its own. */
    function GetTermination(name: string): (r: Result<Port, ModelException>)
      ensures r == Failure(Structural(NoTerminationsMessage))
    {
      Failure(Structural(NoTerminationsMessage))
    }

    /** getTerminations */
    function GetTerminations(): (r: seq<Port>)
      ensures r == []
    {
      []
    }

    /** The muscle loop of `step`: sets each muscle's length, runs it and collects its torque. */
    method AdvanceMuscles(state: seq<real>, startTime: real, stepLength: real, ghost c: Coupling, ghost p: Plant)
      returns (muscleTorques: seq<real>)
      requires Valid() && c == Config() && p == Snapshot() && Ready(c, p) && state == p.state
      modifies myMuscles
      ensures forall k | 0 <= k < myMuscles.Length :: myMuscles[k] == Some(MuscleAfter(c, p, startTime, stepLength, k))
      ensures muscleTorques == Torques(c, p, startTime, stepLength)
    {
      var torques := new real[myDynamics.inputDimension];
      for i := 0 to torques.Length
        invariant Config() == c && myDynamics.state == p.state
        invariant forall k | 0 <= k < i :: myMuscles[k] == Some(MuscleAfter(c, p, startTime, stepLength, k))
        invariant forall k | i <= k < myMuscles.Length :: myMuscles[k] == p.muscles[k]
        invariant forall k | 0 <= k < i :: torques[k] == Torque(c, p, startTime, stepLength, k)
      {
        torques[i] := AdvanceMuscle(i, state, startTime, stepLength, c, p);
      }
      muscleTorques := torques[..];
    }

    /** One pass of the muscle loop: slot i gets its length, is run, and yields its torque. */
    method AdvanceMuscle(i: nat, state: seq<real>, startTime: real, stepLength: real, ghost c: Coupling, ghost p: Plant)
      returns (torque: real)
      requires Valid() && c == Config() && Ready(c, p) && state == p.state
      requires i < myMuscles.Length == |p.muscles| && myMuscles[i] == p.muscles[i]
      modifies myMuscles
      ensures myMuscles[..] == old(myMuscles[..])[i := Some(MuscleAfter(c, p, startTime, stepLength, i))]
      ensures torque == Torque(c, p, startTime, stepLength, i)
    {
      var muscle := SetLength(myMuscles[i].value, myLengths[i].value(state));
      muscle := RunMuscle(muscle, startTime, startTime + stepLength);
      myMuscles[i] := Some(muscle);
      torque := Force(muscle) * myMomentArms[i].value(state);
    }

    /**
     * step: advances every muscle at the current coordinates, then takes an Euler
     * step of the coordinates and advances the time; the time and the coordinates
     * stay put when the vector sum throws.
     */
    method Step(startTime: real, stepLength: real) returns (failure: Option<MatrixUtil.Mismatch>)
      requires Valid() && Ready(Config(), Snapshot())
      modifies this, myDynamics, myMuscles
      ensures Valid() && Ready(Config(), Snapshot())
      ensures Registry() == old(Registry()) && Config() == old(Config())
      ensures var r := StepSpec(Config(), old(Snapshot()), startTime, stepLength);
        && r.plant == Snapshot()
        && (failure.None? <==> r.Completed?)
        && (failure.Some? ==> r == Aborted(Snapshot(), failure.value))
    {
      ghost var c := Config();
      ghost var p := Snapshot();
      var state := myDynamics.state;
      var muscleTorques := AdvanceMuscles(state, startTime, stepLength, c, p);
      var dxdt := myDynamics.f(state, startTime, muscleTorques);
      var increment := MatrixUtil.ProdVectorScalar(dxdt, stepLength);
      var next := MatrixUtil.SumVectors(state, increment);
      if next.Failure? {
        return Some(next.error);
      }
      assert forall k | 0 <= k < |dxdt| :: increment[k] == MatrixUtil.Scaled(dxdt, stepLength)[k];
      assert increment == MatrixUtil.Scaled(dxdt, stepLength);
      myDynamics.SetState(next.value);
      myTime := myTime + stepLength;
      return None;
    }

    /**
     * run: steps from startTime until endTime with the schedule of StepLength and
     * then sets the time to endTime; the first exception aborts the run.
     */
    method Run(startTime: real, endTime: real) returns (failure: Option<MatrixUtil.Mismatch>)
      requires Valid() && Ready(Config(), Snapshot()) && myTimeStep > 0.0
      modifies this, myDynamics, myMuscles
      ensures Valid() && Ready(Config(), Snapshot())
      ensures Registry() == old(Registry()) && Config() == old(Config())
      ensures var r := Simulate(Config(), old(Snapshot()).(time := startTime), Schedule(startTime, myTimeStep, endTime));
        && (failure.None? <==> r.Completed?)
        && (failure.None? ==> Snapshot() == r.plant.(time := endTime))
        && (failure.Some? ==> r == Aborted(Snapshot(), failure.value))
    {
      ghost var c := Config();
      myTime := startTime;
      ghost var goal := Simulate(c, Snapshot(), Schedule(startTime, myTimeStep, endTime));
      while myTime < endTime
        invariant Valid() && Ready(Config(), Snapshot()) && Config() == c && Registry() == old(Registry())
        invariant Simulate(c, Snapshot(), Schedule(myTime, myTimeStep, endTime)) == goal
        decreases Remaining(myTime, myTimeStep, endTime)
      {
        var stepLength := if myTime + myTimeStep * 1.1 >= endTime then endTime - myTime else myTimeStep;
        ghost var before := Snapshot();
        ghost var t := myTime;
        assert Schedule(t, myTimeStep, endTime)[0] == stepLength;
        RemainingDecreases(t, myTimeStep, endTime);
        failure := Step(myTime, stepLength);
        if failure.Some? {
          return;
        }
        assert Schedule(t, myTimeStep, endTime)[1..] == Schedule(myTime, myTimeStep, endTime);
      }
      assert Schedule(myTime, myTimeStep, endTime) == [];
      myTime := endTime;
      return None;
    }

    /** reset: zeroes every generalized coordinate, whatever `randomize` says; nothing else changes. */
    method Reset(randomize: bool)
      modifies myDynamics
      ensures myDynamics.state == seq(|old(myDynamics.state)|, _ => 0.0)
    {
      myDynamics.SetState(seq(|myDynamics.state|, _ => 0.0));
    }

    /**
     * getHistory: the joint coordinates (computed one definition function at a
     * time), a generalized coordinate, or the unknown-state exception.
     */
    method GetHistory(stateName: string) returns (result: Result<TimeSeries, ModelException>)
      requires Probeable(myJointDefinitions, myDynamics.state, stateName)
      ensures result == HistorySpec(myJointDefinitions, myDynamics.state, myTime, stateName)
    {
      if stateName in myJointDefinitions {
        var definition := myJointDefinitions[stateName];
        var jointCoordinates := new real[|definition|];
        var genCoordinates := myDynamics.state;
        for i := 0 to |definition|
          invariant forall k | 0 <= k < i :: jointCoordinates[k] == definition[k](genCoordinates)
        {
          jointCoordinates[i] := definition[i](genCoordinates);
        }
        assert jointCoordinates[..] == seq(|definition|, i requires 0 <= i < |definition| => definition[i](genCoordinates));
        return Success(TimeSeries([myTime], [jointCoordinates[..]], seq(|definition|, _ => Metres)));
      } else if IsCoordinateName(stateName) {
        var coord := CoordinateIndex(stateName);
        return Success(TimeSeries([myTime], [[myDynamics.state[coord]]], [Unknown]));
      } else {
        return Failure(Simulation("The state " + stateName + " is unknown"));
      }
    }
  }

  // ---------------------------------------------------------------------------
  // Properties of the history and the registered states
  // ---------------------------------------------------------------------------

  /** A joint name wins over the coordinate pattern: a joint called "p0" reports the joint. */
  lemma JointNameTakesPrecedence(joints: map<string, seq<CoordFn>>, state: seq<real>, time: real, name: string)
    requires name in joints
    ensures var r := HistorySpec(joints, state, time, name);
      && r.Success? && r.value.times == [time]
      && |r.value.values| == 1 && |r.value.values[0]| == |joints[name]| == |r.value.units|
      && forall i | 0 <= i < |joints[name]| :: r.value.values[0][i] == joints[name][i](state) && r.value.units[i] == Metres
  {
  }

  /** "p" + i reports generalized coordinate i at the current time, unless a joint has that name. */
  lemma CoordinateHistory(joints: map<string, seq<CoordFn>>, state: seq<real>, time: real, i: nat)
    requires i < |state| && "p" + Numeral(i) !in joints
    ensures Probeable(joints, state, "p" + Numeral(i))
    ensures HistorySpec(joints, state, time, "p" + Numeral(i)) == Success(TimeSeries([time], [[state[i]]], [Unknown]))
  {
    CoordinateNameOf(i);
  }

  /** A name that is neither a joint nor "p<digits>" is an unknown state. */
  lemma UnknownStateFails(joints: map<string, seq<CoordFn>>, state: seq<real>, time: real, name: string)
    requires name !in joints && !IsCoordinateName(name)
    ensures HistorySpec(joints, state, time, name).Failure?
    ensures HistorySpec(joints, state, time, name).error == Simulation("The state " + name + " is unknown")
  {
  }

  /** Right after a reset, every coordinate's history reads 0. */
  lemma HistoryAfterReset(joints: map<string, seq<CoordFn>>, n: nat, time: real, i: nat)
    requires i < n && "p" + Numeral(i) !in joints
    ensures Probeable(joints, seq(n, _ => 0.0), "p" + Numeral(i))
    ensures var r := HistorySpec(joints, seq(n, _ => 0.0), time, "p" + Numeral(i));
      r.Success? && r.value.values == [[0.0]]
  {
    CoordinateHistory(joints, seq(n, _ => 0.0), time, i);
  }

  /** The registered states are exactly "q<i>" for each coordinate i, each described as a generalized coordinate. */
  lemma {:induction false} CoordinateStatesListed(n: nat)
    ensures forall i | 0 <= i < n ::
      "q" + Numeral(i) in CoordinateStates(n) && CoordinateStates(n)["q" + Numeral(i)] == "Generalized coordinate " + Numeral(i)
    ensures forall name | name in CoordinateStates(n) :: |name| > 1 && name[0] == 'q'
    decreases n
  {
    if n > 0 {
      CoordinateStatesListed(n - 1);
      forall i | 0 <= i < n - 1
        ensures "q" + Numeral(i) != "q" + Numeral(n - 1)
      {
        if "q" + Numeral(i) == "q" + Numeral(n - 1) {
          assert Numeral(i) == ("q" + Numeral(i))[1..] == ("q" + Numeral(n - 1))[1..] == Numeral(n - 1);
          NumeralInjective(i, n - 1);
        }
      }
    }
  }

  /** The "q<i>" names the model lists cannot be queried: unless a joint has that name, the history call fails. */
  lemma ListedCoordinatesNotQueryable(joints: map<string, seq<CoordFn>>, state: seq<real>, time: real, name: string)
    requires name in CoordinateStates(|state|) && name !in joints
    ensures Probeable(joints, state, name)
    ensures HistorySpec(joints, state, time, name).Failure?
  {
    CoordinateStatesListed(|state|);
  }

  /**
   * A completed run ends at the end time it was given: setting the time to endTime
   * after the loop changes nothing when the run is not empty.
   */
  lemma RunEndsAtEndTime(c: Coupling, p: Plant, dt: real, end: real)
    requires Ready(c, p) && dt > 0.0 && p.time < end
    ensures var r := Simulate(c, p, Schedule(p.time, dt, end));
      r.Completed? ==> r.plant.time == end && |r.plant.state| == |p.state|
  {
    ScheduleCovers(p.time, dt, end);
    SimulateAdvancesTime(c, p, Schedule(p.time, dt, end));
  }
}
