/**
 * The Akka.NET actor: mutable fields plus the set of message handlers
 * currently installed with `Become`. The handlers themselves do not check
 * the state; only the installed behaviour decides which messages reach them.
 */
module AkkaDevice {
  import opened Wrappers
  import opened DeviceModel

  /** The three handler sets the actor switches between. */
  datatype Behaviour = CanStart | CanStopOrPause | CanStopOrResume

  /** Which messages a behaviour routes to a real handler (the others only print an error). */
  predicate Handles(b: Behaviour, msg: Command): (h: bool)
    // read message by message: which behaviour routes each one to its handler
    ensures msg.ReportStatus? ==> h
    ensures msg.Start? ==> (h <==> b == CanStart)
    ensures msg.Stop? ==> (h <==> b != CanStart)
    ensures msg.Resume? ==> (h <==> b == CanStopOrResume)
    ensures msg.Pause? || msg.SetFlux? || msg.SetGravity? ==> (h <==> b == CanStopOrPause)
  {
    match b
    case CanStart => msg.ReportStatus? || msg.Start?
    case CanStopOrPause => msg.ReportStatus? || msg.Stop? || msg.Pause? || msg.SetFlux? || msg.SetGravity?
    case CanStopOrResume => msg.ReportStatus? || msg.Stop? || msg.Resume?
  }

  /** The error a behaviour prints for a message it does not handle. */
  function RejectionMessage(b: Behaviour, msg: Command): (m: string)
    ensures !Handles(b, msg) ==> |m| > 0
    // a refused setter names the state the actor is in
    ensures (msg.SetFlux? || msg.SetGravity?) && !Handles(b, msg) ==>
      m == "Cannot change device state while it is " + StateName(InstalledFor(b)) + "."
  {
    match (b, msg)
    case (CanStart, Stop) => "Device is already stopped."
    case (CanStart, Pause) => "Device is not running."
    case (CanStart, Resume) => "Device is not paused."
    case (CanStart, _) => "Cannot change device state while it is stopped."
    case (CanStopOrPause, Resume) => "Device is not paused."
    case (_, Start) => "Device is already started."
    case (CanStopOrResume, Pause) => "Device is already paused."
    case (_, _) => "Cannot change device state while it is paused."
  }

  /** The behaviour installed alongside each status. */
  function BehaviourOf(s: Status): (b: Behaviour)
    ensures forall msg :: Handles(b, msg) <==> Permitted(s, msg)
  {
    match s
    case Stopped => CanStart
    case Running => CanStopOrPause
    case Paused => CanStopOrResume
  }

  /** The status a behaviour is installed for. */
  function InstalledFor(b: Behaviour): (s: Status)
    ensures BehaviourOf(s) == b
  {
    match b
    case CanStart => Stopped
    case CanStopOrPause => Running
    case CanStopOrResume => Paused
  }

  /** The `_state` string of each status. */
  function StateName(s: Status): string {
    match s
    case Stopped => "stopped"
    case Running => "running"
    case Paused => "paused"
  }

  /** The answer the actor gives to a message in state `d`. */
  function Response(d: Device, msg: Command, now: int): Outcome {
    Answer(Step(d, msg, now).1, RejectionMessage(BehaviourOf(d.status), msg))
  }

  class DeviceActor {
    const id: string
    var state: string
    var started: Option<int>
    var fluxCapacitance: int32
    var gravitationalIntegrity: real
    var behaviour: Behaviour

    /** The installed behaviour always matches the state name. */
    predicate Valid()
      reads this
    {
      state == StateName(InstalledFor(behaviour))
    }

    function Snapshot(): Device
      reads this
    {
      Device(InstalledFor(behaviour), started, fluxCapacitance, gravitationalIntegrity)
    }

    constructor (id: string)
      ensures this.id == id && Valid() && behaviour == CanStart && state == "stopped"
      ensures Snapshot() == Initial
    {
      this.id := id;
      state := "stopped";
      started := None;
      fluxCapacitance := 0;
      gravitationalIntegrity := 0.0;
      behaviour := CanStart;
    }

    /**
     * Delivers one message: the installed behaviour either hands it to its
     * handler or prints the behaviour's error and changes nothing.
     */
    method Receive(msg: Command, now: int) returns (r: Outcome)
      requires Valid()
      modifies this
      ensures Valid()
      ensures Snapshot() == Step(old(Snapshot()), msg, now).0
      ensures r == Response(old(Snapshot()), msg, now)
    {
      if !Handles(behaviour, msg) {
        return Rejected(RejectionMessage(behaviour, msg));
      }
      match msg
      case Start => Start(now); r := Done;
      case Stop => Stop(); r := Done;
      case Pause => Pause(); r := Done;
      case Resume => Resume(); r := Done;
      case SetFlux(farads) => SetFluxCapacitance(farads); r := Done;
      case SetGravity(units) => SetGravitationalIntegrity(units); r := Done;
      case ReportStatus => var report := ReportStatus(now); r := Answered(report);
    }

    method ReportStatus(now: int) returns (report: StatusReport)
      ensures report == Report(Snapshot(), now)
    {
      var uptime := if started == None then 0 else now - started.value;
      report := StatusReport(InstalledFor(behaviour), uptime, fluxCapacitance, gravitationalIntegrity);
    }

    method Start(now: int)
      modifies this
      ensures Valid() && behaviour == CanStopOrPause
      ensures started == Some(now) && state == "running"
      ensures fluxCapacitance == 1 && gravitationalIntegrity == 1.0
    {
      started := Some(now);
      state := "running";
      fluxCapacitance := 1;
      gravitationalIntegrity := 1.0;
      behaviour := CanStopOrPause;
    }

    method Stop()
      modifies this
      ensures Valid() && behaviour == CanStart
      ensures started == None && state == "stopped"
      ensures fluxCapacitance == old(fluxCapacitance) && gravitationalIntegrity == old(gravitationalIntegrity)
    {
      started := None;
      state := "stopped";
      behaviour := CanStart;
    }

    method Pause()
      modifies this
      ensures Valid() && behaviour == CanStopOrResume && state == "paused"
      ensures started == old(started)
      ensures fluxCapacitance == old(fluxCapacitance) && gravitationalIntegrity == old(gravitationalIntegrity)
    {
      state := "paused";
      behaviour := CanStopOrResume;
    }

    method Resume()
      modifies this
      ensures Valid() && behaviour == CanStopOrPause && state == "running"
      ensures started == old(started)
      ensures fluxCapacitance == old(fluxCapacitance) && gravitationalIntegrity == old(gravitationalIntegrity)
    {
      state := "running";
      behaviour := CanStopOrPause;
    }

    method SetFluxCapacitance(farads: int32)
      modifies this`fluxCapacitance
      ensures fluxCapacitance == farads
    {
      fluxCapacitance := farads;
    }

    method SetGravitationalIntegrity(units: real)
      modifies this`gravitationalIntegrity
      ensures gravitationalIntegrity == units
    {
      gravitationalIntegrity := units;
    }
  }
}
