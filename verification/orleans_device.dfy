/**
 * The Orleans grain: a `DeviceState` record held by the grain and updated in
 * place, then written to the grain's storage provider.
 */
module OrleansDevice {
  import opened Wrappers
  import opened DeviceModel

  /** The grain's state record; a fresh one is Stopped with no start time and zero values. */
  class DeviceState {
    var State: Status
    var Started: Option<int>
    var FluxCapacitance: int32
    var GravitationalIntegrity: real

    constructor ()
      ensures State == Stopped && Started == None
      ensures FluxCapacitance == 0 && GravitationalIntegrity == 0.0
    {
      State := Stopped;
      Started := None;
      FluxCapacitance := 0;
      GravitationalIntegrity := 0.0;
    }
  }

  class DeviceActor {
    /** The grain's primary key. */
    const id: string
    /** The grain state, `this.State` in the grain. */
    const State: DeviceState
    /** How many times the state was handed to the storage provider. */
    var writes: nat

    function Snapshot(): Device
      reads this, State
    {
      Device(State.State, State.Started, State.FluxCapacitance, State.GravitationalIntegrity)
    }

    constructor (id: string)
      ensures this.id == id && fresh(State)
      ensures Snapshot() == Initial && writes == 0
    {
      this.id := id;
      State := new DeviceState();
      writes := 0;
    }

    method Start(now: int) returns (r: Outcome)
      modifies State, this`writes
      ensures Snapshot() == Step(old(Snapshot()), Command.Start, now).0
      ensures r == Answer(Step(old(Snapshot()), Command.Start, now).1, InvalidOperationMessage(Command.Start))
      ensures writes == old(writes) + (if r.Done? then 1 else 0)
    {
      if State.State != Stopped {
        return Rejected("Device not stopped.");
      }
      State.Started := Some(now);
      State.State := Running;
      State.FluxCapacitance := 1;
      State.GravitationalIntegrity := 1.0;
      writes := writes + 1;
      r := Done;
    }

    method Stop() returns (r: Outcome)
      modifies State, this`writes
      ensures forall now :: Snapshot() == Step(old(Snapshot()), Command.Stop, now).0
      ensures forall now :: r == Answer(Step(old(Snapshot()), Command.Stop, now).1, InvalidOperationMessage(Command.Stop))
      ensures writes == old(writes) + (if r.Done? then 1 else 0)
    {
      if State.State == Stopped {
        return Rejected("Device is already stopped.");
      }
      State.Started := None;
      State.State := Stopped;
      writes := writes + 1;
      r := Done;
    }

    method Pause() returns (r: Outcome)
      modifies State, this`writes
      ensures forall now :: Snapshot() == Step(old(Snapshot()), Command.Pause, now).0
      ensures forall now :: r == Answer(Step(old(Snapshot()), Command.Pause, now).1, InvalidOperationMessage(Command.Pause))
      ensures writes == old(writes) + (if r.Done? then 1 else 0)
    {
      if State.State != Running {
        return Rejected("Device not running.");
      }
      State.State := Paused;
      writes := writes + 1;
      r := Done;
    }

    method Resume() returns (r: Outcome)
      modifies State, this`writes
      ensures forall now :: Snapshot() == Step(old(Snapshot()), Command.Resume, now).0
      ensures forall now :: r == Answer(Step(old(Snapshot()), Command.Resume, now).1, InvalidOperationMessage(Command.Resume))
      ensures writes == old(writes) + (if r.Done? then 1 else 0)
    {
      if State.State != Paused {
        return Rejected("Device not paused.");
      }
      State.State := Running;
      writes := writes + 1;
      r := Done;
    }

    method SetFluxCapacitance(farads: int32) returns (r: Outcome)
      modifies State, this`writes
      ensures forall now :: Snapshot() == Step(old(Snapshot()), SetFlux(farads), now).0
      ensures forall now :: r == Answer(Step(old(Snapshot()), SetFlux(farads), now).1, InvalidOperationMessage(SetFlux(farads)))
      ensures writes == old(writes) + (if r.Done? then 1 else 0)
    {
      if State.State != Running {
        return Rejected("Cannot change state; device is not running.");
      }
      State.FluxCapacitance := farads;
      writes := writes + 1;
      r := Done;
    }

    method SetGravitationalIntegrity(units: real) returns (r: Outcome)
      modifies State, this`writes
      ensures forall now :: Snapshot() == Step(old(Snapshot()), SetGravity(units), now).0
      ensures forall now :: r == Answer(Step(old(Snapshot()), SetGravity(units), now).1, InvalidOperationMessage(SetGravity(units)))
      ensures writes == old(writes) + (if r.Done? then 1 else 0)
    {
      if State.State != Running {
        return Rejected("Cannot change state; device is not running.");
      }
      State.GravitationalIntegrity := units;
      writes := writes + 1;
      r := Done;
    }

    /** Reads the state and nothing else; no storage write. */
    method ReportStatus(now: int) returns (r: Outcome)
      ensures r == Answer(Step(Snapshot(), Command.ReportStatus, now).1, "")
      ensures r.Answered? && (Inv(Snapshot()) && State.State == Stopped ==> r.report.uptime == 0)
    {
      var uptime := if State.Started == None then 0 else now - State.Started.value;
      r := Answered(StatusReport(State.State, uptime, State.FluxCapacitance, State.GravitationalIntegrity));
    }
  }
}
