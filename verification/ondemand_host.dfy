/**
 * The Orleans and Service Fabric command shells, which share one design: the
 * runtime activates a device the first time its id is used, so the shell
 * keeps only a set of the ids it has looked up. Creating and removing devices
 * are reported as not needed and not supported. Every exception a command
 * raises is caught by the command loop and printed.
 */
module OnDemandHost {
  import opened Wrappers
  import opened DeviceModel
  import opened Shell
  import CommandLine

  /**
   * Which runtime the shell talks to. It selects the texts of two notices,
   * which keys the runtime accepts (`KeyAccepted`), and whether the runtime
   * may already hold devices when the shell starts.
   */
  datatype Platform = Orleans | ServiceFabric

  function NotSupportedMessage(p: Platform): string {
    match p
    case Orleans => "Not supported. Orleans does not support explicit lifetime management operations for actor instances."
    case ServiceFabric => "Not supported. SF does not support explicit lifetime management operations for actor instances."
  }

  function NotNeededMessage(p: Platform): string {
    match p
    case Orleans => "Not needed. Orleans creates actor instances as needed to satisfy client requests."
    case ServiceFabric => "Not needed. SF creates actor instances as needed to satisfy client requests."
  }

  /** The ASCII white-space characters. */
  predicate IsWhiteSpace(c: char) {
    c == ' ' || c == '\t' || c == '\n' || c == '\r' || c == '\U{B}' || c == '\U{C}'
  }

  /**
   * Whether the runtime accepts `id` as a device key: Orleans refuses a string
   * key that is empty or all white space; a Service Fabric `ActorId` takes any
   * string.
   */
  predicate KeyAccepted(p: Platform, id: string): (ok: bool)
    ensures p.Orleans? && id == "" ==> !ok
    ensures p.Orleans? ==> (ok <==> exists i | 0 <= i < |id| :: !IsWhiteSpace(id[i]))
    ensures p.ServiceFabric? ==> ok
  {
    p.ServiceFabric? || !(forall i | 0 <= i < |id| :: IsWhiteSpace(id[i]))
  }

  /** The state a device has when its id is used: the one the runtime holds, or a fresh Stopped one if it holds none. */
  function Activated(devices: map<string, Device>, id: string): (d: Device)
    ensures id in devices ==> d == devices[id]
    ensures id !in devices ==> d == Initial && forall now :: Uptime(d, now) == 0
  {
    if id in devices then devices[id] else Initial
  }

  /** The effect of calling a device method and waiting for it: a refusal surfaces as an exception. */
  function CallEffect(id: string, msg: Command, v: Verdict): (e: Effect)
    ensures e.fault.Some? <==> v.Refused?
    ensures e.fault.Some? ==> e == Effect([], Some(InvalidOperation(InvalidOperationMessage(msg))))
    ensures e.fault.None? ==> e.lines == [Delivered(id, Answer(v, ""))]
  {
    if v.Refused? then Effect([], Some(InvalidOperation(InvalidOperationMessage(msg))))
    else Effect([Delivered(id, Answer(v, ""))], None)
  }

  class CommandCentral {
    const platform: Platform
    /** `_devices`: every id this shell has looked up. */
    var ids: set<string>
    /**
     * The state of every device the runtime holds: those this shell has used,
     * and those that already existed when it started.
     */
    var devices: map<string, Device>

    predicate Valid()
      reads this
    {
      && ids <= devices.Keys
      && (forall id | id in ids :: KeyAccepted(platform, id))
      && forall id | id in devices :: Inv(devices[id])
    }

    /**
     * A shell starting against a runtime that already holds `held`. The
     * Orleans host starts its own silo, which holds nothing yet; a Service
     * Fabric cluster keeps its actors' state across runs of the client.
     */
    constructor (platform: Platform, held: map<string, Device>)
      requires platform.Orleans? ==> held == map[]
      requires forall id | id in held :: Inv(held[id])
      ensures this.platform == platform && Valid() && ids == {} && devices == held
    {
      this.platform := platform;
      ids := {};
      devices := held;
    }

    /**
     * Obtains a reference to the device and then records its id. A key the
     * runtime refuses raises before the id is recorded; otherwise the runtime
     * materialises a Stopped device on first use of an id it does not hold.
     */
    method GetDevice(id: string) returns (d: Option<Device>)
      requires Valid()
      modifies this
      ensures Valid()
      ensures !KeyAccepted(platform, id) ==> d == None && ids == old(ids) && devices == old(devices)
      ensures KeyAccepted(platform, id) ==>
        && ids == old(ids) + {id}
        && d == Some(Activated(old(devices), id)) && devices == old(devices)[id := d.value]
    {
      if !KeyAccepted(platform, id) {
        return None;
      }
      ids := ids + {id};
      if id !in devices {
        devices := devices[id := Initial];
      }
      d := Some(devices[id]);
    }

    /** Looks the id up and calls one device method on it, waiting for the result. */
    method Call(id: string, msg: Command, now: int) returns (e: Effect)
      requires Valid()
      modifies this
      ensures Valid()
      ensures !KeyAccepted(platform, id) ==>
        ids == old(ids) && devices == old(devices) && e == Effect([], Some(InvalidKey(id)))
      ensures KeyAccepted(platform, id) ==> ids == old(ids) + {id}
      ensures KeyAccepted(platform, id) ==> var t := Step(Activated(old(devices), id), msg, now);
        devices == old(devices)[id := t.0] && e == CallEffect(id, msg, t.1)
    {
      var device := GetDevice(id);
      if device == None {
        return Effect([], Some(InvalidKey(id)));
      }
      var t := Step(device.value, msg, now);
      devices := devices[id := t.0];
      e := CallEffect(id, msg, t.1);
    }

    /** stop-device, pause-device and resume-device: an id is required. */
    method ForwardCommand(parts: seq<string>, msg: Command, now: int) returns (e: Effect)
      requires Valid()
      modifies this
      ensures Valid()
      // the guard returns before the lookup, so nothing is recorded
      ensures |parts| < 1 ==> ids == old(ids) && devices == old(devices) && e == Effect([Usage(SpecifyId)], None)
      ensures |parts| >= 1 && !KeyAccepted(platform, parts[0]) ==>
        ids == old(ids) && devices == old(devices) && e == Effect([], Some(InvalidKey(parts[0])))
      ensures |parts| >= 1 && KeyAccepted(platform, parts[0]) ==> ids == old(ids) + {parts[0]}
      ensures |parts| >= 1 && KeyAccepted(platform, parts[0]) ==> var t := Step(Activated(old(devices), parts[0]), msg, now);
        devices == old(devices)[parts[0] := t.0] && e == CallEffect(parts[0], msg, t.1)
    {
      if |parts| < 1 {
        return Effect([Usage(SpecifyId)], None);
      }
      var id := parts[0];
      e := Call(id, msg, now);
    }

    /**
     * start-device. Its guard prints the usage text but does not return, so
     * with no id `parts[0]` raises before any lookup.
     */
    method StartDevice(parts: seq<string>, now: int) returns (e: Effect)
      requires Valid()
      modifies this
      ensures Valid()
      ensures |parts| < 1 ==> ids == old(ids) && devices == old(devices) && e == Effect([Usage(SpecifyId)], Some(IndexOutOfRange))
      ensures |parts| >= 1 && !KeyAccepted(platform, parts[0]) ==>
        ids == old(ids) && devices == old(devices) && e == Effect([], Some(InvalidKey(parts[0])))
      ensures |parts| >= 1 && KeyAccepted(platform, parts[0]) ==> ids == old(ids) + {parts[0]}
      ensures |parts| >= 1 && KeyAccepted(platform, parts[0]) ==> var t := Step(Activated(old(devices), parts[0]), Start, now);
        devices == old(devices)[parts[0] := t.0] && e == CallEffect(parts[0], Start, t.1)
    {
      var lines: seq<Reply> := [];
      if |parts| < 1 {
        lines := [Usage(SpecifyId)];
      }
      // no return after the guard: reading the missing id raises
      if |parts| < 1 {
        return Effect(lines, Some(IndexOutOfRange));
      }
      var id := parts[0];
      e := Call(id, Start, now);
    }

    method SetFluxCapacitance(parts: seq<string>, now: int, parseInt: string -> Option<int32>) returns (e: Effect)
      requires Valid()
      modifies this
      ensures Valid()
      ensures |parts| < 2 ==> ids == old(ids) && devices == old(devices) && e == Effect([Usage(SpecifyFarads)], None)
      // the number is parsed before the lookup: a bad number records nothing
      ensures |parts| >= 2 && parseInt(parts[1]).None? ==>
        ids == old(ids) && devices == old(devices) && e == Effect([], Some(BadNumber(parts[1])))
      ensures |parts| >= 2 && parseInt(parts[1]).Some? && !KeyAccepted(platform, parts[0]) ==>
        ids == old(ids) && devices == old(devices) && e == Effect([], Some(InvalidKey(parts[0])))
      ensures |parts| >= 2 && parseInt(parts[1]).Some? && KeyAccepted(platform, parts[0]) ==>
        var msg := SetFlux(parseInt(parts[1]).value);
        var t := Step(Activated(old(devices), parts[0]), msg, now);
        && ids == old(ids) + {parts[0]}
        && devices == old(devices)[parts[0] := t.0] && e == CallEffect(parts[0], msg, t.1)
    {
      if |parts| < 2 {
        return Effect([Usage(SpecifyFarads)], None);
      }
      var id := parts[0];
      var farads := parseInt(parts[1]);
      if farads == None {
        return Effect([], Some(BadNumber(parts[1])));
      }
      e := Call(id, SetFlux(farads.value), now);
    }

    method SetGravitationalIntegrity(parts: seq<string>, now: int, parseReal: string -> Option<real>) returns (e: Effect)
      requires Valid()
      modifies this
      ensures Valid()
      ensures |parts| < 2 ==> ids == old(ids) && devices == old(devices) && e == Effect([Usage(SpecifyUnits)], None)
      ensures |parts| >= 2 && parseReal(parts[1]).None? ==>
        ids == old(ids) && devices == old(devices) && e == Effect([], Some(BadNumber(parts[1])))
      ensures |parts| >= 2 && parseReal(parts[1]).Some? && !KeyAccepted(platform, parts[0]) ==>
        ids == old(ids) && devices == old(devices) && e == Effect([], Some(InvalidKey(parts[0])))
      ensures |parts| >= 2 && parseReal(parts[1]).Some? && KeyAccepted(platform, parts[0]) ==>
        var msg := SetGravity(parseReal(parts[1]).value);
        var t := Step(Activated(old(devices), parts[0]), msg, now);
        && ids == old(ids) + {parts[0]}
        && devices == old(devices)[parts[0] := t.0] && e == CallEffect(parts[0], msg, t.1)
    {
      if |parts| < 2 {
        return Effect([Usage(SpecifyUnits)], None);
      }
      var id := parts[0];
      var units := parseReal(parts[1]);
      if units == None {
        return Effect([], Some(BadNumber(parts[1])));
      }
      e := Call(id, SetGravity(units.value), now);
    }

    /**
     * device-status: the named device, recording its id (an id the runtime
     * does not hold reports a Stopped device with zero uptime); with no id, every recorded
     * device in turn, which records nothing new.
     */
    method DeviceStatus(parts: seq<string>, now: int) returns (e: Effect, shown: seq<string>)
      requires Valid()
      modifies this
      ensures Valid()
      ensures |parts| > 0 && !KeyAccepted(platform, parts[0]) ==>
        shown == [] && ids == old(ids) && devices == old(devices) && e == Effect([], Some(InvalidKey(parts[0])))
      ensures |parts| > 0 && KeyAccepted(platform, parts[0]) ==>
        shown == [parts[0]] && ids == old(ids) + {parts[0]} && e.fault == None
      ensures |parts| > 0 && KeyAccepted(platform, parts[0]) ==>
        devices == old(devices)[parts[0] := Activated(old(devices), parts[0])]
      ensures |parts| == 0 ==> Enumerates(shown, old(ids)) && ids == old(ids) && devices == old(devices) && e.fault == None
      ensures |e.lines| == |shown|
      ensures forall i | 0 <= i < |shown| ::
        e.lines[i] == Delivered(shown[i], Answered(Report(Activated(old(devices), shown[i]), now)))
    {
      if |parts| > 0 {
        e := Call(parts[0], ReportStatus, now);
        shown := if e.fault == None then [parts[0]] else [];
        return;
      }
      shown := Shell.Enumerate(ids);
      var lines := [];
      var i := 0;
      while i < |shown|
        invariant 0 <= i <= |shown| && |lines| == i
        invariant Valid() && ids == old(ids) && devices == old(devices)
        invariant forall j | 0 <= j < i :: lines[j] == Delivered(shown[j], Answered(Report(devices[shown[j]], now)))
      {
        var reply := Call(shown[i], ReportStatus, now);
        assert devices == old(devices);
        lines := lines + reply.lines;
        i := i + 1;
      }
      e := Effect(lines, None);
    }

    /** kill-device: not supported; nothing changes. */
    method KillDevice(parts: seq<string>) returns (e: Effect)
      ensures e == Effect([Notice(NotSupportedMessage(platform))], None)
    {
      e := Effect([Notice(NotSupportedMessage(platform))], None);
    }

    /** new-device: not needed; nothing changes. */
    method NewDevice(parts: seq<string>) returns (e: Effect)
      ensures e == Effect([Notice(NotNeededMessage(platform))], None)
    {
      e := Effect([Notice(NotNeededMessage(platform))], None);
    }

    /** list-devices: the number of distinct ids ever looked up, then each id once. */
    method ListDevices() returns (e: Effect)
      ensures e.fault == None && |e.lines| == 1 && e.lines[0].Listing?
      ensures e.lines[0].count == |ids| && Enumerates(e.lines[0].ids, ids)
    {
      var shown := Shell.Enumerate(ids);
      e := Effect([Listing(|ids|, shown)], None);
    }

    /** Runs the handler a classified command line selects and catches what it raises. */
    method Dispatch(verb: CommandLine.Verb, parts: seq<string>, now: int,
                    parseInt: string -> Option<int32>, parseReal: string -> Option<real>)
      returns (c: Control)
      requires Valid()
      modifies this
      ensures Valid()
      ensures !c.Crash?
      ensures c.Exit? <==> verb == CommandLine.Exit
      ensures ids == old(ids) || (parts != [] && ids == old(ids) + {parts[0]})
      ensures old(devices).Keys <= devices.Keys
      ensures forall id | id in old(devices) && (parts == [] || id != parts[0]) :: devices[id] == old(devices)[id]
    {
      var e: Effect;
      var shown: seq<string>;
      match verb {
        case Help => return Continue([HelpText]);
        case Exit => return Exit;
        case ListDevices => e := ListDevices();
        case NewDevice => e := NewDevice(parts);
        case KillDevice => e := KillDevice(parts);
        case StartDevice => e := StartDevice(parts, now);
        case StopDevice => e := ForwardCommand(parts, Stop, now);
        case PauseDevice => e := ForwardCommand(parts, Pause, now);
        case ResumeDevice => e := ForwardCommand(parts, Resume, now);
        case DeviceStatus => e, shown := DeviceStatus(parts, now);
        case SetFluxCapacitance => e := SetFluxCapacitance(parts, now, parseInt);
        case SetGravitationalIntegrity => e := SetGravitationalIntegrity(parts, now, parseReal);
        case Unknown => return Continue([UnknownCommand]);
      }
      c := if e.fault.Some? then Continue(e.lines + [Caught(e.fault.value)]) else Continue(e.lines);
    }

    /**
     * One pass of the command loop: no command ends the loop except exit;
     * the registry grows by at most the line's first argument, and no other
     * device changes.
     */
    method Execute(cmd: string, now: int, parseInt: string -> Option<int32>, parseReal: string -> Option<real>)
      returns (c: Control)
      requires Valid()
      modifies this
      ensures Valid()
      ensures !c.Crash?
      ensures c.Exit? <==> CommandLine.ToLowerInvariant(cmd) == "exit"
      ensures old(ids) <= ids
      ensures ids == old(ids) || (CommandLine.Args(cmd) != [] && ids == old(ids) + {CommandLine.Args(cmd)[0]})
      ensures old(devices).Keys <= devices.Keys
      ensures forall id | id in old(devices) && (CommandLine.Args(cmd) == [] || id != CommandLine.Args(cmd)[0]) ::
        devices[id] == old(devices)[id]
    {
      c := Dispatch(CommandLine.Classify(cmd), CommandLine.Args(cmd), now, parseInt, parseReal);
    }
  }
}
