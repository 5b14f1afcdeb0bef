/**
 * The Akka.NET command shell with its eager device registry: a dictionary
 * from id to actor, filled only by new-device and emptied only by
 * kill-device. The actors' state is kept here as device values; a message
 * told to an actor is handled as AkkaDevice.Response describes.
 */
module AkkaHost {
  import opened Wrappers
  import opened DeviceModel
  import opened Shell
  import CommandLine
  import AkkaDevice

  class CommandCentral {
    /** `_devices`: the registered ids and the state of the actor behind each. */
    var devices: map<string, Device>

    predicate Valid()
      reads this
    {
      forall id | id in devices :: Inv(devices[id])
    }

    constructor ()
      ensures Valid() && devices == map[]
    {
      devices := map[];
    }

    /** `TryGetValue`: the actor registered under `id`, or nothing; the dictionary is not touched. */
    method GetDevice(id: string) returns (d: Option<Device>)
      ensures d.Some? <==> id in devices
      ensures d.Some? ==> d.value == devices[id]
    {
      if id in devices {
        d := Some(devices[id]);
      } else {
        d := None;
      }
    }

    /** Looks the id up and, when it is registered, tells the actor `msg`. */
    method Tell(id: string, msg: Command, now: int) returns (e: Effect)
      requires Valid()
      modifies this
      ensures Valid()
      ensures id !in old(devices) ==> devices == old(devices) && e == Effect([NotFound(id)], None)
      ensures id in old(devices) ==>
        && devices == old(devices)[id := Step(old(devices)[id], msg, now).0]
        && e == Effect([Delivered(id, AkkaDevice.Response(old(devices)[id], msg, now))], None)
    {
      var device := GetDevice(id);
      if device == None {
        return Effect([NotFound(id)], None);
      }
      var t := Step(device.value, msg, now);
      devices := devices[id := t.0];
      e := Effect([Delivered(id, AkkaDevice.Response(device.value, msg, now))], None);
    }

    /** start-device, stop-device, pause-device and resume-device: an id is required. */
    method ForwardCommand(parts: seq<string>, msg: Command, now: int) returns (e: Effect)
      requires Valid()
      modifies this
      ensures Valid()
      ensures |parts| < 1 ==> devices == old(devices) && e == Effect([Usage(SpecifyId)], None)
      ensures |parts| >= 1 && parts[0] !in old(devices) ==> devices == old(devices) && e == Effect([NotFound(parts[0])], None)
      ensures |parts| >= 1 && parts[0] in old(devices) ==>
        && devices == old(devices)[parts[0] := Step(old(devices)[parts[0]], msg, now).0]
        && e == Effect([Delivered(parts[0], AkkaDevice.Response(old(devices)[parts[0]], msg, now))], None)
    {
      if |parts| < 1 {
        return Effect([Usage(SpecifyId)], None);
      }
      var id := parts[0];
      e := Tell(id, msg, now);
    }

    method SetFluxCapacitance(parts: seq<string>, now: int, parseInt: string -> Option<int32>) returns (e: Effect)
      requires Valid()
      modifies this
      ensures Valid()
      ensures |parts| < 2 ==> devices == old(devices) && e == Effect([Usage(SpecifyFarads)], None)
      // the number is parsed before the lookup: a bad number raises even for an unknown id
      ensures |parts| >= 2 && parseInt(parts[1]).None? ==>
        devices == old(devices) && e == Effect([], Some(BadNumber(parts[1])))
      ensures |parts| >= 2 && parseInt(parts[1]).Some? && parts[0] in old(devices) ==>
        var msg := SetFlux(parseInt(parts[1]).value);
        && devices == old(devices)[parts[0] := Step(old(devices)[parts[0]], msg, now).0]
        && e == Effect([Delivered(parts[0], AkkaDevice.Response(old(devices)[parts[0]], msg, now))], None)
      ensures |parts| >= 2 && parseInt(parts[1]).Some? && parts[0] !in old(devices) ==>
        devices == old(devices) && e == Effect([NotFound(parts[0])], None)
    {
      if |parts| < 2 {
        return Effect([Usage(SpecifyFarads)], None);
      }
      var id := parts[0];
      var farads := parseInt(parts[1]);
      if farads == None {
        return Effect([], Some(BadNumber(parts[1])));
      }
      e := Tell(id, SetFlux(farads.value), now);
    }

    method SetGravitationalIntegrity(parts: seq<string>, now: int, parseReal: string -> Option<real>) returns (e: Effect)
      requires Valid()
      modifies this
      ensures Valid()
      ensures |parts| < 2 ==> devices == old(devices) && e == Effect([Usage(SpecifyUnits)], None)
      ensures |parts| >= 2 && parseReal(parts[1]).None? ==>
        devices == old(devices) && e == Effect([], Some(BadNumber(parts[1])))
      ensures |parts| >= 2 && parseReal(parts[1]).Some? && parts[0] in old(devices) ==>
        var msg := SetGravity(parseReal(parts[1]).value);
        && devices == old(devices)[parts[0] := Step(old(devices)[parts[0]], msg, now).0]
        && e == Effect([Delivered(parts[0], AkkaDevice.Response(old(devices)[parts[0]], msg, now))], None)
      ensures |parts| >= 2 && parseReal(parts[1]).Some? && parts[0] !in old(devices) ==>
        devices == old(devices) && e == Effect([NotFound(parts[0])], None)
    {
      if |parts| < 2 {
        return Effect([Usage(SpecifyUnits)], None);
      }
      var id := parts[0];
      var units := parseReal(parts[1]);
      if units == None {
        return Effect([], Some(BadNumber(parts[1])));
      }
      e := Tell(id, SetGravity(units.value), now);
    }

    /** The status line for one id: its report, or "not found". */
    method ReportOne(id: string, now: int) returns (line: Reply)
      ensures id !in devices ==> line == NotFound(id)
      ensures id in devices ==> line == Delivered(id, Answered(Report(devices[id], now)))
    {
      var device := GetDevice(id);
      if device == None {
        line := NotFound(id);
      } else {
        line := Delivered(id, Answered(Report(device.value, now)));
      }
    }

    /** device-status: the named device, or every registered device when no id is given. */
    method DeviceStatus(parts: seq<string>, now: int) returns (e: Effect, ids: seq<string>)
      ensures e.fault == None
      ensures |parts| > 0 ==> ids == [parts[0]]
      ensures |parts| == 0 ==> Enumerates(ids, devices.Keys)
      ensures |e.lines| == |ids|
      ensures forall i | 0 <= i < |ids| ::
        e.lines[i] == (if ids[i] in devices then Delivered(ids[i], Answered(Report(devices[ids[i]], now))) else NotFound(ids[i]))
    {
      if |parts| > 0 {
        ids := [parts[0]];
        var line := ReportOne(parts[0], now);
        return Effect([line], None), ids;
      }
      ids := Shell.Enumerate(devices.Keys);
      var lines := [];
      var i := 0;
      while i < |ids|
        invariant 0 <= i <= |ids| && |lines| == i
        invariant forall j | 0 <= j < i :: lines[j] == Delivered(ids[j], Answered(Report(devices[ids[j]], now)))
      {
        var line := ReportOne(ids[i], now);
        lines := lines + [line];
        i := i + 1;
      }
      e := Effect(lines, None);
    }

    /** kill-device: stops the actor and removes exactly its entry. */
    method KillDevice(parts: seq<string>) returns (e: Effect)
      requires Valid()
      modifies this
      ensures Valid() && e.fault == None
      ensures |parts| < 1 ==> devices == old(devices) && e.lines == [Usage(SpecifyId)]
      ensures |parts| >= 1 && parts[0] !in old(devices) ==> devices == old(devices) && e.lines == [NotFound(parts[0])]
      ensures |parts| >= 1 && parts[0] in old(devices) ==>
        devices == old(devices) - {parts[0]} && e.lines == [Removed(parts[0])]
    {
      if |parts| < 1 {
        return Effect([Usage(SpecifyId)], None);
      }
      var id := parts[0];
      var device := GetDevice(id);
      if device == None {
        return Effect([NotFound(id)], None);
      }
      devices := devices - {id};
      e := Effect([Removed(id)], None);
    }

    /**
     * new-device: registers a Stopped actor under the given id, or under
     * `freshId` (a new Guid) when none is given; a taken id raises.
     */
    method NewDevice(parts: seq<string>, freshId: string, validName: string -> bool) returns (e: Effect)
      requires Valid()
      modifies this
      ensures Valid()
      ensures var id := if |parts| > 0 then parts[0] else freshId;
        if !validName(id) then devices == old(devices) && e == Effect([], Some(InvalidName(id)))
        else if id in old(devices) then devices == old(devices) && e == Effect([], Some(DuplicateId(id)))
        else devices == old(devices)[id := Initial] && e == Effect([Created(id)], None)
    {
      var id := freshId;
      if |parts| > 0 {
        id := parts[0];
      }
      if !validName(id) {
        return Effect([], Some(InvalidName(id)));
      }
      if id in devices {
        return Effect([], Some(DuplicateId(id)));
      }
      devices := devices[id := Initial];
      e := Effect([Created(id)], None);
    }

    /** list-devices: the number of registered ids, then each id once. */
    method ListDevices() returns (e: Effect)
      ensures e.fault == None && |e.lines| == 1 && e.lines[0].Listing?
      ensures e.lines[0].count == |devices| && Enumerates(e.lines[0].ids, devices.Keys)
    {
      var ids := Shell.Enumerate(devices.Keys);
      e := Effect([Listing(|devices|, ids)], None);
    }

    /** Runs the handler a classified command line selects. */
    method Dispatch(verb: CommandLine.Verb, parts: seq<string>, now: int, freshId: string, validName: string -> bool,
                    parseInt: string -> Option<int32>, parseReal: string -> Option<real>)
      returns (c: Control)
      requires Valid()
      modifies this
      ensures Valid()
      ensures c.Exit? <==> verb == CommandLine.Exit
      ensures c.Crash? ==> c.fault.InvalidName? || c.fault.DuplicateId? || c.fault.BadNumber?
      ensures c.Crash? && !c.fault.BadNumber? ==> verb == CommandLine.NewDevice
      ensures devices.Keys != old(devices.Keys) ==> verb in {CommandLine.NewDevice, CommandLine.KillDevice}
      ensures forall id | id in old(devices) && id in devices && (parts == [] || id != parts[0]) ::
        devices[id] == old(devices)[id]
    {
      var e: Effect;
      var shown: seq<string>;
      match verb {
        case Help => return Continue([HelpText]);
        case Exit => return Exit;
        case ListDevices => e := ListDevices();
        case NewDevice => e := NewDevice(parts, freshId, validName);
        case KillDevice => e := KillDevice(parts);
        case StartDevice => e := ForwardCommand(parts, Start, now);
        case StopDevice => e := ForwardCommand(parts, Stop, now);
        case PauseDevice => e := ForwardCommand(parts, Pause, now);
        case ResumeDevice => e := ForwardCommand(parts, Resume, now);
        case DeviceStatus => e, shown := DeviceStatus(parts, now);
        case SetFluxCapacitance => e := SetFluxCapacitance(parts, now, parseInt);
        case SetGravitationalIntegrity => e := SetGravitationalIntegrity(parts, now, parseReal);
        case Unknown => return Continue([UnknownCommand]);
      }
      c := if e.fault.Some? then Crash(e.lines, e.fault.value) else Continue(e.lines);
    }

    /**
     * One pass of the command loop. The loop has no exception handler, so an
     * exception ends the program.
     */
    method Execute(cmd: string, now: int, freshId: string, validName: string -> bool,
                   parseInt: string -> Option<int32>, parseReal: string -> Option<real>)
      returns (c: Control)
      requires Valid()
      modifies this
      ensures Valid()
      ensures c.Exit? <==> CommandLine.ToLowerInvariant(cmd) == "exit"
      ensures c.Crash? ==> c.fault.InvalidName? || c.fault.DuplicateId? || c.fault.BadNumber?
      ensures c.Crash? && !c.fault.BadNumber? ==> CommandLine.Classify(cmd) == CommandLine.NewDevice
      // only new-device and kill-device change which ids are registered
      ensures devices.Keys != old(devices.Keys) ==>
        CommandLine.Classify(cmd) in {CommandLine.NewDevice, CommandLine.KillDevice}
      // a command reaches at most the device named by its first argument
      ensures forall id | id in old(devices) && id in devices && (CommandLine.Args(cmd) == [] || id != CommandLine.Args(cmd)[0]) ::
        devices[id] == old(devices)[id]
    {
      c := Dispatch(CommandLine.Classify(cmd), CommandLine.Args(cmd), now, freshId, validName, parseInt, parseReal);
    }
  }
}
