/**
 * The Service Fabric actor: its state lives in a keyed state store under the
 * keys "state", "started", "fluxCapacitance" and "gravitationalIntegrity".
 * Every method reads "state", then overwrites entries one by one and saves.
 */
module FabricDevice {
  import opened Wrappers
  import opened DeviceModel

  /** An entry of the state store, tagged with the type it was stored as. */
  datatype StateValue =
    | StatusValue(status: Status)
    | StartedValue(started: Option<int>)
    | FluxValue(flux: int32)
    | GravityValue(gravity: real)

  const StateKey: string := "state"
  const StartedKey: string := "started"
  const FluxKey: string := "fluxCapacitance"
  const GravityKey: string := "gravitationalIntegrity"

  /** The four keys are distinct, so writing one entry never disturbs another. */
  lemma KeysDistinct()
    ensures StateKey != StartedKey && StateKey != FluxKey && StateKey != GravityKey
    ensures StartedKey != FluxKey && StartedKey != GravityKey && FluxKey != GravityKey
  {
    assert StateKey[3] != StartedKey[3];
  }

  class DeviceActor {
    const id: string
    /** The actor's state manager. */
    var stateManager: map<string, StateValue>
    /** How many times the state manager was saved. */
    var saves: nat

    /** Every key holds a value of the type the methods read it as. */
    predicate Valid()
      reads this
    {
      && StateKey in stateManager && stateManager[StateKey].StatusValue?
      && StartedKey in stateManager && stateManager[StartedKey].StartedValue?
      && FluxKey in stateManager && stateManager[FluxKey].FluxValue?
      && GravityKey in stateManager && stateManager[GravityKey].GravityValue?
    }

    function Snapshot(): Device
      reads this
      requires Valid()
    {
      Device(stateManager[StateKey].status, stateManager[StartedKey].started,
             stateManager[FluxKey].flux, stateManager[GravityKey].gravity)
    }

    /** The runtime constructs the actor with an empty store and then activates it. */
    constructor (id: string)
      ensures this.id == id && stateManager == map[] && saves == 0
    {
      this.id := id;
      stateManager := map[];
      saves := 0;
    }

    /** Activation writes the four initial entries: Stopped, no start time, zero, zero. */
    method OnActivate()
      modifies this`stateManager
      ensures Valid() && Snapshot() == Initial
      ensures stateManager.Keys == old(stateManager.Keys) + {StateKey, StartedKey, FluxKey, GravityKey}
    {
      KeysDistinct();
      stateManager := stateManager[StateKey := StatusValue(Stopped)];
      stateManager := stateManager[StartedKey := StartedValue(None)];
      stateManager := stateManager[FluxKey := FluxValue(0)];
      stateManager := stateManager[GravityKey := GravityValue(0.0)];
    }

    method Pause() returns (r: Outcome)
      requires Valid()
      modifies this
      ensures Valid() && stateManager.Keys == old(stateManager.Keys)
      ensures forall now :: Snapshot() == Step(old(Snapshot()), Command.Pause, now).0
      ensures forall now :: r == Answer(Step(old(Snapshot()), Command.Pause, now).1, InvalidOperationMessage(Command.Pause))
      ensures saves == old(saves) + (if r.Done? then 1 else 0)
    {
      KeysDistinct();
      var state := stateManager[StateKey].status;
      if state != Running {
        return Rejected("Device not running.");
      }
      stateManager := stateManager[StateKey := StatusValue(Paused)];
      saves := saves + 1;
      r := Done;
    }

    /** Only reads the store; the report stands for the JSON text the actor returns. */
    method ReportStatus(now: int) returns (r: Outcome)
      requires Valid()
      ensures r == Answer(Step(Snapshot(), Command.ReportStatus, now).1, "")
      ensures r.Answered? && (r.report.uptime != 0 ==> stateManager[StartedKey].started.Some?)
    {
      var started := stateManager[StartedKey].started;
      var uptime := if started == None then 0 else now - started.value;
      r := Answered(StatusReport(stateManager[StateKey].status, uptime,
                                 stateManager[FluxKey].flux, stateManager[GravityKey].gravity));
    }

    method Resume() returns (r: Outcome)
      requires Valid()
      modifies this
      ensures Valid() && stateManager.Keys == old(stateManager.Keys)
      ensures forall now :: Snapshot() == Step(old(Snapshot()), Command.Resume, now).0
      ensures forall now :: r == Answer(Step(old(Snapshot()), Command.Resume, now).1, InvalidOperationMessage(Command.Resume))
      ensures saves == old(saves) + (if r.Done? then 1 else 0)
    {
      KeysDistinct();
      var state := stateManager[StateKey].status;
      if state != Paused {
        return Rejected("Device not paused.");
      }
      stateManager := stateManager[StateKey := StatusValue(Running)];
      saves := saves + 1;
      r := Done;
    }

    method SetFluxCapacitance(farads: int32) returns (r: Outcome)
      requires Valid()
      modifies this
      ensures Valid() && stateManager.Keys == old(stateManager.Keys)
      ensures forall now :: Snapshot() == Step(old(Snapshot()), SetFlux(farads), now).0
      ensures forall now :: r == Answer(Step(old(Snapshot()), SetFlux(farads), now).1, InvalidOperationMessage(SetFlux(farads)))
      ensures saves == old(saves) + (if r.Done? then 1 else 0)
      // only its own key is written
      ensures forall k | k in stateManager && k != FluxKey :: stateManager[k] == old(stateManager[k])
    {
      KeysDistinct();
      var state := stateManager[StateKey].status;
      if state != Running {
        return Rejected("Cannot change state; device is not running.");
      }
      stateManager := stateManager[FluxKey := FluxValue(farads)];
      saves := saves + 1;
      r := Done;
    }

    method SetGravitationalIntegrity(units: real) returns (r: Outcome)
      requires Valid()
      modifies this
      ensures Valid() && stateManager.Keys == old(stateManager.Keys)
      ensures forall now :: Snapshot() == Step(old(Snapshot()), SetGravity(units), now).0
      ensures forall now :: r == Answer(Step(old(Snapshot()), SetGravity(units), now).1, InvalidOperationMessage(SetGravity(units)))
      ensures saves == old(saves) + (if r.Done? then 1 else 0)
      // only its own key is written
      ensures forall k | k in stateManager && k != GravityKey :: stateManager[k] == old(stateManager[k])
    {
      KeysDistinct();
      var state := stateManager[StateKey].status;
      if state != Running {
        return Rejected("Cannot change state; device is not running.");
      }
      stateManager := stateManager[GravityKey := GravityValue(units)];
      saves := saves + 1;
      r := Done;
    }

    method Start(now: int) returns (r: Outcome)
      requires Valid()
      modifies this
      ensures Valid() && stateManager.Keys == old(stateManager.Keys)
      ensures Snapshot() == Step(old(Snapshot()), Command.Start, now).0
      ensures r == Answer(Step(old(Snapshot()), Command.Start, now).1, InvalidOperationMessage(Command.Start))
      ensures saves == old(saves) + (if r.Done? then 1 else 0)
    {
      KeysDistinct();
      var state := stateManager[StateKey].status;
      if state != Stopped {
        return Rejected("Device not stopped.");
      }
      stateManager := stateManager[StateKey := StatusValue(Running)];
      stateManager := stateManager[StartedKey := StartedValue(Some(now))];
      stateManager := stateManager[FluxKey := FluxValue(1)];
      stateManager := stateManager[GravityKey := GravityValue(1.0)];
      saves := saves + 1;
      r := Done;
    }

    method Stop() returns (r: Outcome)
      requires Valid()
      modifies this
      ensures Valid() && stateManager.Keys == old(stateManager.Keys)
      ensures forall now :: Snapshot() == Step(old(Snapshot()), Command.Stop, now).0
      ensures forall now :: r == Answer(Step(old(Snapshot()), Command.Stop, now).1, InvalidOperationMessage(Command.Stop))
      ensures saves == old(saves) + (if r.Done? then 1 else 0)
    {
      KeysDistinct();
      var state := stateManager[StateKey].status;
      if state == Stopped {
        return Rejected("Device is already stopped.");
      }
      stateManager := stateManager[StateKey := StatusValue(Stopped)];
      stateManager := stateManager[StartedKey := StartedValue(None)];
      saves := saves + 1;
      r := Done;
    }
  }
}
