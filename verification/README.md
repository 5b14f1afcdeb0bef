# IoT Command Central — a verified model of the device lifecycle

The repository runs one small system on three actor runtimes (Orleans,
Service Fabric and Akka.NET). Each runtime holds "devices". A device is
Stopped, Running or Paused. It keeps a start time, an integer flux
capacitance and a floating-point gravitational integrity. Each device accepts
start, stop, pause, resume, two setters and a status report, and each command
is gated on the current status. An interactive shell in front of each runtime
finds devices by id. The Akka shell keeps an eager registry: devices are
created and removed explicitly. The Orleans and Service Fabric shells rely on
on-demand activation: a device exists as soon as its id is used.

The model has these parts:

- `device.dfy` (module `DeviceModel`): the transition table as a pure
  function `Step(device, command, now)`. It also holds an independent
  state-by-state table `Permitted`/`Target`, the invariant
  `status == Stopped <==> started == None`, and `Run` over request sequences,
  with lemmas about runs.
- `orleans_device.dfy`, `fabric_device.dfy`, `akka_device.dfy`: one class per
  runtime, in that runtime's own form, each proved to refine `Step`.
  - The Orleans grain updates a `DeviceState` record in place.
  - The Service Fabric actor overwrites entries of a keyed state store.
  - The Akka actor mutates fields and switches its installed handler set.
    Its handlers never check the state; only the installed behaviour does.
- `conformance.dfy`: drives all three classes with the same requests. It
  proves they hold the same fields after any sequence, and that they refuse
  the same requests.
- `command_line.dfy`: how a shell line is classified and split into
  arguments.
- `shell.dfy`: what one shell command produces: printed lines as values, and
  the exception it raises.
- `akka_host.dfy`: the Akka shell with its dictionary registry.
- `ondemand_host.dfy`: the Orleans and Service Fabric shells with their
  id set. The two Program files share the same decision logic, so one class,
  parameterised by `Platform`, models both. `Platform` selects:
  - the two notice texts;
  - which keys the runtime accepts (`KeyAccepted`): Orleans refuses an empty
    or all-white-space key, and Service Fabric accepts every key;
  - whether the runtime may already hold devices when the shell starts.
    Orleans holds none; a Service Fabric cluster may hold some.

  The other differences in runtime calls, and where a status report is
  rendered, are left out (see below).

Modelling choices:

- The clock (`DateTimeOffset.UtcNow`) is the integer parameter `now`.
- A new Guid is the parameter `freshId`.
- `int.Parse` and `double.Parse` are function parameters. Their failure is
  the `BadNumber` fault.
- A `double` is a `real` that is only stored and copied.
- A C# `int` is the `int32` newtype.
- Whether the actor system accepts a name as an actor name is the predicate
  parameter `validName`.
- Orleans refuses an empty or all-white-space grain key before the shell
  records the id. This is `KeyAccepted`, and the refusal is the caught
  `InvalidKey` fault.
- The devices a Service Fabric cluster already holds when the client starts
  are a constructor parameter. The Orleans host starts its own silo, which
  holds none yet.

The model follows the code in these places:

- Stop keeps the flux and gravity values rather than discarding them.
- The Akka shell has no exception handler. It ends its command loop
  (`Control.Crash`) on any of these: an id that is not a valid actor name on
  `new-device`, a duplicate id, or an unparsable number.
- In the Orleans and Service Fabric shells, `start-device` with no id prints
  the usage text and does not return. `parts[0]` then raises, and the
  exception is caught and printed. The model keeps this as written
  (`OnDemandHost.CommandCentral.StartDevice`).

## Model

| member | source | states |
|---|---|---|
| `DeviceModel.Step` | OrleansIoT/GrainImplementations/DeviceActor.cs:38-138 | A command is refused exactly when the state-by-state table does not admit it, and a refusal changes nothing. The new status is the table's target. The invariant is kept. Only ReportStatus reports, and it mutates nothing. Start gives Running, start time `now`, flux 1, gravity 1. Stop clears the start time. Each setter writes its value with no range check. Each field is written only by the commands that own it. |
| `DeviceModel.Uptime` | OrleansIoT/GrainImplementations/DeviceActor.cs:132 | No start time reads zero. Otherwise the uptime added to the start time gives `now`, and it is non-negative when `now` is no earlier than the start. |
| `DeviceModel.Report` | OrleansIoT/GrainImplementations/DeviceActor.cs:130-137 | A report copies status, flux and gravity. Its uptime is `now - started` for a device with a start time, and zero for one without. It is therefore zero for a stopped device that satisfies the invariant. |
| `DeviceModel.InvalidOperationMessage` | OrleansIoT/GrainImplementations/DeviceActor.cs:40-122 | Every command a status can refuse has a non-empty exception text. ReportStatus, which is never refused, has none. |
| `DeviceModel.Run` | OrleansIoT/GrainImplementations/DeviceActor.cs:38-137 | Handling requests in order, one at a time. A run made only of status reports leaves the device as it was. |
| `DeviceModel.RunSnoc` | OrleansIoT/GrainImplementations/DeviceActor.cs:38-128 | Handling one more request extends a run by exactly one step. This is the sequential, one-at-a-time handling of a device's commands. |
| `DeviceModel.RunKeepsInv` | OrleansIoT/GrainImplementations/DeviceActor.cs:45-95 | `status == Stopped <==> started == None` holds after any sequence of commands from a device that satisfies it. |
| `DeviceModel.ReachableInv` | OrleansIoT/GrainImplementations/DeviceActor.cs:19-29 | The default state satisfies the invariant, so every reachable device does. |
| `DeviceModel.UptimeNonNegative` | OrleansIoT/GrainImplementations/DeviceActor.cs:132 | Uptime is never negative when the report's clock reading is no earlier than the start time and every request handled since. |
| `DeviceModel.LastFluxWins` | OrleansIoT/GrainImplementations/DeviceActor.cs:102-114 | After any number of flux writes to a running device, it is still running and holds exactly the last value written. No other field changes. |
| `DeviceModel.StartThenReport` | OrleansIoT/GrainImplementations/DeviceActor.cs:38-137 | Starting a stopped device and then asking for its status reports Running, flux 1, gravity 1, and uptime equal to the time since the start. |
| `DeviceModel.FullCycle` | OrleansIoT/GrainImplementations/DeviceActor.cs:38-100 | Start, Pause, Resume, Stop brings any stopped device back to Stopped with no start time and zero uptime. Flux and gravity keep the values Start set. |
| `DeviceModel.PausedRefusesFlux` | OrleansIoT/GrainImplementations/DeviceActor.cs:102-109 | A flux write to a paused device is refused and leaves the device unchanged. |
| `OrleansDevice.DeviceState.constructor` | OrleansIoT/GrainImplementations/DeviceActor.cs:19-29 | A fresh state record is Stopped, with no start time, flux 0 and gravity 0. |
| `OrleansDevice.DeviceActor.constructor` | OrleansIoT/GrainImplementations/DeviceActor.cs:31-36 | A new grain holds the initial device and has written nothing to storage. |
| `OrleansDevice.DeviceActor.Start` | OrleansIoT/GrainImplementations/DeviceActor.cs:38-56 | The record becomes `Step(old, Start, now)`. A refusal is the exception "Device not stopped.". Storage is written once, and only after the guard passes. |
| `OrleansDevice.DeviceActor.Stop` | OrleansIoT/GrainImplementations/DeviceActor.cs:58-72 | The record becomes `Step(old, Stop)`. A refusal is "Device is already stopped.". Storage is written only on success. |
| `OrleansDevice.DeviceActor.Pause` | OrleansIoT/GrainImplementations/DeviceActor.cs:74-86 | The record becomes `Step(old, Pause)`, so only Running moves to Paused. A refusal is "Device not running.". |
| `OrleansDevice.DeviceActor.Resume` | OrleansIoT/GrainImplementations/DeviceActor.cs:88-100 | The record becomes `Step(old, Resume)`, so only Paused moves to Running. A refusal is "Device not paused.". |
| `OrleansDevice.DeviceActor.SetFluxCapacitance` | OrleansIoT/GrainImplementations/DeviceActor.cs:102-114 | The record becomes `Step(old, SetFlux(farads))`. It succeeds only when Running and writes storage only then. |
| `OrleansDevice.DeviceActor.SetGravitationalIntegrity` | OrleansIoT/GrainImplementations/DeviceActor.cs:116-128 | The record becomes `Step(old, SetGravity(units))`. It succeeds only when Running and writes storage only then. |
| `OrleansDevice.DeviceActor.ReportStatus` | OrleansIoT/GrainImplementations/DeviceActor.cs:130-138 | The answer is the report of the current record at `now`. Nothing is mutated or written, and uptime is zero when the device is stopped. |
| `FabricDevice.DeviceActor.constructor` | ServiceFabricIoT/DeviceActor/DeviceActor.cs:24-27 | A constructed actor has an empty state store and has saved nothing. |
| `FabricDevice.DeviceActor.OnActivate` | ServiceFabricIoT/DeviceActor/DeviceActor.cs:29-37 | Activation stores the four keys with Stopped, no start time, 0 and 0, so the store decodes to the initial device. |
| `FabricDevice.DeviceActor.Pause` | ServiceFabricIoT/DeviceActor/DeviceActor.cs:39-53 | The store decodes to `Step(old, Pause)`, and no key is added or lost. A refusal is "Device not running.". The store is saved only after the guard passes and the write is made. |
| `FabricDevice.DeviceActor.ReportStatus` | ServiceFabricIoT/DeviceActor/DeviceActor.cs:55-71 | Only reads the store. The report is that of the decoded device, and a nonzero uptime implies a stored start time. |
| `FabricDevice.DeviceActor.Resume` | ServiceFabricIoT/DeviceActor/DeviceActor.cs:73-87 | The store decodes to `Step(old, Resume)`. A refusal is "Device not paused.", and the store is saved only on success. |
| `FabricDevice.DeviceActor.SetFluxCapacitance` | ServiceFabricIoT/DeviceActor/DeviceActor.cs:89-103 | The store decodes to `Step(old, SetFlux(farads))`. Every key other than "fluxCapacitance" keeps its entry, and the store is saved only on success. |
| `FabricDevice.DeviceActor.SetGravitationalIntegrity` | ServiceFabricIoT/DeviceActor/DeviceActor.cs:105-119 | The store decodes to `Step(old, SetGravity(units))`. Every key other than "gravitationalIntegrity" keeps its entry, and the store is saved only on success. |
| `FabricDevice.DeviceActor.Start` | ServiceFabricIoT/DeviceActor/DeviceActor.cs:121-138 | The store decodes to `Step(old, Start, now)`: Running, `now`, 1, 1. A refusal is "Device not stopped.". |
| `FabricDevice.DeviceActor.Stop` | ServiceFabricIoT/DeviceActor/DeviceActor.cs:140-155 | The store decodes to `Step(old, Stop)`, so flux and gravity keep their entries. A refusal is "Device is already stopped.". |
| `AkkaDevice.BehaviourOf` | AkkaIoT/AkkaIoT/DeviceActor.cs:26-60 | The handler set installed for a status handles exactly the messages the transition table admits in that status. |
| `AkkaDevice.Handles` | AkkaIoT/AkkaIoT/DeviceActor.cs:26-60 | Message by message: every behaviour handles ReportStatus; only `CanStart` handles Start; Stop is handled everywhere but `CanStart`; only `CanStopOrResume` handles Resume; only `CanStopOrPause` handles Pause and the setters. |
| `AkkaDevice.RejectionMessage` | AkkaIoT/AkkaIoT/DeviceActor.cs:26-60 | Every unhandled message gets a non-empty text. A refused setter gets "Cannot change device state while it is " followed by the actor's state name. |
| `AkkaDevice.DeviceActor.constructor` | AkkaIoT/AkkaIoT/DeviceActor.cs:13-24 | A new actor is "stopped", with no start time, flux 0, gravity 0, and behaviour `CanStart`. |
| `AkkaDevice.DeviceActor.Receive` | AkkaIoT/AkkaIoT/DeviceActor.cs:26-60 | Delivering a message through the installed behaviour yields `Step(old, msg, now)`, and the behaviour keeps matching `_state`. An unhandled message changes no field and gets that behaviour's error text. |
| `AkkaDevice.DeviceActor.ReportStatus` | AkkaIoT/AkkaIoT/DeviceActor.cs:62-70 | The report is that of the current fields at `now`, and nothing is mutated. |
| `AkkaDevice.DeviceActor.Start` | AkkaIoT/AkkaIoT/DeviceActor.cs:72-87 | Sets the start time to `now`, "running", flux 1, gravity 1, and installs `CanStopOrPause`. |
| `AkkaDevice.DeviceActor.Stop` | AkkaIoT/AkkaIoT/DeviceActor.cs:89-100 | Clears the start time, sets "stopped" and installs `CanStart`. Flux and gravity are untouched. |
| `AkkaDevice.DeviceActor.Pause` | AkkaIoT/AkkaIoT/DeviceActor.cs:102-111 | Sets "paused" and installs `CanStopOrResume`. Nothing else changes. |
| `AkkaDevice.DeviceActor.Resume` | AkkaIoT/AkkaIoT/DeviceActor.cs:113-122 | Sets "running" and installs `CanStopOrPause`. Nothing else changes. |
| `AkkaDevice.DeviceActor.SetFluxCapacitance` | AkkaIoT/AkkaIoT/DeviceActor.cs:124-131 | Writes only the flux field. |
| `AkkaDevice.DeviceActor.SetGravitationalIntegrity` | AkkaIoT/AkkaIoT/DeviceActor.cs:133-140 | Writes only the gravity field. |
| `Conformance.CallGrain` | OrleansIoT/GrainInterfaces/IDeviceActor.cs:9-18 | Calling the grain method for a command moves the grain to `Step(old, cmd, now)`, with the grain's refusal texts. |
| `Conformance.CallActor` | ServiceFabricIoT/DeviceActor.Interfaces/IDeviceActor.cs:10-19 | Calling the actor method for a command moves the store to `Step(old, cmd, now)`, with the actor's refusal texts. |
| `Conformance.PrefixSnoc` | ServiceFabricIoT/DeviceActor/DeviceActor.cs:39-155 | One more request extends both the run and the list of answers by exactly one step. |
| `Conformance.Lockstep` | ServiceFabricIoT/DeviceActor/DeviceActor.cs:29-155 | The Orleans, Service Fabric and Akka devices, given the same requests, all end in `Run(Initial, requests)`. The Orleans and Service Fabric answers are the same list, `Answers(requests)`. Each of its elements is the table's verdict on the device as it stood before that request, with the exception text of those runtimes. Akka refuses exactly the same requests and otherwise answers identically. |
| `CommandLine.FirstPrefix` | AkkaIoT/AkkaIoT/Program.cs:40-79 | Returns the first command keyword, in the shell's order, that starts the line: every earlier keyword does not match, and the chosen one does. |
| `CommandLine.ToLowerInvariant` | AkkaIoT/AkkaIoT/Program.cs:28 | The same length, no capital letter left, every capital replaced by its small letter, and every other character kept. |
| `CommandLine.StartsWith` | AkkaIoT/AkkaIoT/Program.cs:40 | The line starts with the keyword exactly when the keyword is no longer than the line and agrees with it character by character. |
| `CommandLine.Classify` | AkkaIoT/AkkaIoT/Program.cs:28-79 | help, exit and list-devices are exact case-insensitive matches. Every other command is the first keyword that prefixes the lower-cased line. Unknown is returned exactly when nothing matches. |
| `CommandLine.ClassifyIgnoresCase` | AkkaIoT/AkkaIoT/Program.cs:28-75 | Classifying the lower-cased line gives the same command. |
| `CommandLine.Split` | AkkaIoT/AkkaIoT/Program.cs:26 | `Split(' ')` gives one more piece than there are separators, and no piece contains the separator. |
| `CommandLine.JoinSplit` | AkkaIoT/AkkaIoT/Program.cs:26 | Joining the pieces with the separator gives back the line. |
| `CommandLine.SplitJoin` | AkkaIoT/AkkaIoT/Program.cs:26 | Splitting a join of separator-free pieces gives back the pieces. |
| `CommandLine.Args` | AkkaIoT/AkkaIoT/Program.cs:26 | The arguments (all pieces but the first) number the spaces in the line, and none contains a space. |
| `Shell.Enumerate` | AkkaIoT/AkkaIoT/Program.cs:308-311 | A `foreach` over the keys visits every key exactly once. |
| `AkkaHost.CommandCentral.constructor` | AkkaIoT/AkkaIoT/Program.cs:14 | The registry starts empty. |
| `AkkaHost.CommandCentral.GetDevice` | AkkaIoT/AkkaIoT/Program.cs:279-286 | Returns the entry for a registered id and nothing for an unknown id. The dictionary is not touched. |
| `AkkaHost.CommandCentral.Tell` | AkkaIoT/AkkaIoT/Program.cs:175-184 | An unknown id reports "not found" and changes nothing. A known id's device alone moves by `Step`, and the answer is the Akka actor's. |
| `AkkaHost.CommandCentral.ForwardCommand` | AkkaIoT/AkkaIoT/Program.cs:165-251 | With no id, prints the usage text and returns before any lookup. Otherwise it behaves as `Tell` on the first argument. |
| `AkkaHost.CommandCentral.SetFluxCapacitance` | AkkaIoT/AkkaIoT/Program.cs:111-133 | With fewer than two arguments, the usage text and no change. The number is parsed before the lookup, so a bad number raises even for an unknown id. Otherwise it behaves as `Tell(SetFlux)`. |
| `AkkaHost.CommandCentral.SetGravitationalIntegrity` | AkkaIoT/AkkaIoT/Program.cs:87-109 | The same as the flux command, for gravity. |
| `AkkaHost.CommandCentral.ReportOne` | AkkaIoT/AkkaIoT/Program.cs:137-149 | A registered id gets its device's report. An unknown id gets "not found". |
| `AkkaHost.CommandCentral.DeviceStatus` | AkkaIoT/AkkaIoT/Program.cs:135-163 | With an id, reports only that id. Without one, reports every registered id exactly once. Nothing changes. |
| `AkkaHost.CommandCentral.KillDevice` | AkkaIoT/AkkaIoT/Program.cs:253-277 | With no id, the usage text. An unknown id gives "not found" with the map unchanged. A known id has exactly its entry removed, and every other entry is kept. |
| `AkkaHost.CommandCentral.NewDevice` | AkkaIoT/AkkaIoT/Program.cs:288-302 | Uses the given id, or the fresh Guid when none is given. A name the actor system rejects raises `InvalidName`; otherwise a taken id raises `DuplicateId`. Either way nothing changes. Otherwise exactly that id is added, holding a Stopped device. |
| `AkkaHost.CommandCentral.ListDevices` | AkkaIoT/AkkaIoT/Program.cs:304-312 | Prints a count equal to the number of registered ids, then each id exactly once. |
| `AkkaHost.CommandCentral.Dispatch` | AkkaIoT/AkkaIoT/Program.cs:28-79 | Only new-device and kill-device change which ids are registered, and only the device named by the first argument can change. Exit alone exits. The only escaping exceptions are an invalid name, a duplicate id or a bad number, and any but a bad number comes from new-device. |
| `AkkaHost.CommandCentral.Execute` | AkkaIoT/AkkaIoT/Program.cs:22-84 | One pass of the loop keeps every registered device within the invariant, and it exits exactly on "exit", in any case. An exception ends the program, because the loop has no handler. That exception is an invalid name, a duplicate id (both only from new-device) or a bad number. |
| `OnDemandHost.CommandCentral.constructor` | OrleansIoT/Host/Program.cs:14-21 | The id set starts empty. The runtime holds the given devices, and none at all for Orleans, whose host starts its own silo. |
| `OnDemandHost.KeyAccepted` | OrleansIoT/Host/Program.cs:224 | On Orleans, a key is accepted exactly when it has a character that is not white space, so the empty key is refused. Service Fabric accepts every key. |
| `OnDemandHost.CommandCentral.GetDevice` | OrleansIoT/Host/Program.cs:222-229 | A key the runtime refuses raises before `_devices.Add`, so neither the id set nor any device changes. An accepted key adds the id to the set, so repeated lookups leave the set unchanged. An id the runtime holds keeps its state, and one it does not hold materialises a Stopped device. |
| `OnDemandHost.Activated` | OrleansIoT/Host/Program.cs:222-229 | An id the runtime holds has the state the runtime holds. Any other id is a fresh Stopped device whose uptime is zero at every clock reading. |
| `OnDemandHost.CommandCentral.Call` | OrleansIoT/Host/Program.cs:166-170 | A refused key raises `InvalidKey` and changes nothing. Otherwise it records the id and moves its device by `Step`. A refusal then surfaces as an InvalidOperationException carrying the device's text, and the id stays recorded. |
| `OnDemandHost.CallEffect` | OrleansIoT/Host/Program.cs:87-94 | Waiting on a device call raises exactly when the device refuses, carrying the device's exception text. Otherwise the call's answer is delivered. |
| `OnDemandHost.CommandCentral.ForwardCommand` | OrleansIoT/Host/Program.cs:158-201 | With no id, the usage text, returned before the lookup, so nothing is recorded. Otherwise it behaves as `Call` on the first argument, including the refused-key case. |
| `OnDemandHost.CommandCentral.StartDevice` | OrleansIoT/Host/Program.cs:203-215 | With no id, the usage text followed by an index-out-of-range exception, raised before any lookup, with the registry unchanged. Otherwise it behaves as `Call(Start)`, including the refused-key case. |
| `OnDemandHost.CommandCentral.SetFluxCapacitance` | OrleansIoT/Host/Program.cs:119-134 | With fewer than two arguments, the usage text and nothing recorded. A bad number raises before the lookup, so nothing is recorded. Otherwise it behaves as `Call(SetFlux)`, including the refused-key case. |
| `OnDemandHost.CommandCentral.SetGravitationalIntegrity` | OrleansIoT/Host/Program.cs:102-117 | The same as the flux command, for gravity. |
| `OnDemandHost.CommandCentral.DeviceStatus` | ServiceFabricIoT/Client/Program.cs:130-154 | With an id, a refused key raises and nothing changes. Otherwise it records the id and reports the runtime's state for it; an id the runtime does not hold reports a Stopped device with zero uptime. Without an id, reports every recorded id exactly once, records nothing new and raises nothing. |
| `OnDemandHost.CommandCentral.KillDevice` | ServiceFabricIoT/Client/Program.cs:215-218 | Only the platform's "Not supported" notice. Nothing changes. |
| `OnDemandHost.CommandCentral.NewDevice` | OrleansIoT/Host/Program.cs:231-234 | Only the platform's "Not needed" notice. Nothing changes. |
| `OnDemandHost.CommandCentral.ListDevices` | ServiceFabricIoT/Client/Program.cs:236-244 | Prints the number of distinct ids ever looked up, then each id exactly once. |
| `OnDemandHost.CommandCentral.Dispatch` | ServiceFabricIoT/Client/Program.cs:28-90 | Every exception is caught and printed, so the loop never ends except on exit. The id set grows by at most the first argument, and no other device changes. |
| `OnDemandHost.CommandCentral.Execute` | OrleansIoT/Host/Program.cs:26-97 | One pass of the loop exits exactly on "exit", in any case, and never crashes. Recorded ids and held devices are never lost, and at most the line's first argument is added. Devices not named by it are unchanged. |

## Left out

- Console output and the read loop. Output is the `Reply` values and the command line is an input. Also out: the help text, `Thread.Sleep`, and the `null` that `ReadLine` returns at end of input.
- Actor-runtime services are not modelled, because they live in libraries not part of this model: `ActorSystem.ActorOf`, `GrainClient`, `ActorProxy.Create`, `ConfigurationManager`, and silo start-up and shutdown.
- Concurrency is not modelled: mailboxes, async tasks, per-actor mutual exclusion. Each device handles its commands one at a time, in order, which `Run` captures. Durable persistence is reduced to counters of `WriteStateAsync` and `SaveStateAsync` calls.
- `AkkaHost.CommandCentral.Tell`: `IActorRef.Tell` only enqueues the message, and the actor handles it later on its own thread. The model handles it at once. The actor's printed answer is returned to the shell rather than printed by the actor.
- `AkkaHost.CommandCentral.KillDevice`: the five-second `GracefulStop(...).Wait()` is not modelled. Neither is its timeout exception, since the timeout comes from a runtime library.
- `AkkaHost.CommandCentral.NewDevice`: `ActorOf` with a taken name fails before `Dictionary.Add` would. Both failures are one `DuplicateId` fault. Which names are valid actor names is the `validName` parameter; the actor system's own rules are not spelled out.
- `OnDemandHost.CommandCentral`: the runtime may deactivate an idle device. After that, the Service Fabric actor's `OnActivateAsync` resets its state to Stopped on the next use. The model keeps every activated device's state forever.
- The JSON rendering of the Service Fabric status report, and its parsing in the client. The report is the `StatusReport` record.
- Floating point: gravitational integrity is a `real` that is only copied. The model has no NaN, no infinities and no rounding. `double.Parse` accepts "NaN", "Infinity" and "-Infinity" and rounds decimal input to the nearest `double`. `parseReal` must map such strings to some real or reject them, so storing and reporting such a value is not modelled.
- `TimeSpan` formatting: uptime is the integer difference `now - started`.
- `int.Parse` and `double.Parse` are parameters of the shell commands, and their failure is `BadNumber`. Leading whitespace, culture-specific formats and the exact exception text are not modelled.
- `CommandLine.StartsWith`, `CommandLine.Classify`: matches keywords with an ordinal `StartsWith`. .NET's `string.StartsWith(string)` compares under the current culture, which skips ignorable characters such as the soft hyphen (U+00AD). A line like "new" + U+00AD + "-device x" is new-device there, but the model classifies it as unknown.
- `OnDemandHost.KeyAccepted`: treats the six ASCII white-space characters as white space. Other Unicode white space in an Orleans key, such as U+00A0, is not modelled. Nor are any limits a Service Fabric `ActorId` places on its string.
- `OnDemandHost.CommandCentral.GetDevice`: a Service Fabric cluster may serve other clients. The model assumes no other client changes a device while this shell runs. Devices held before the shell starts are covered by the constructor's `held` parameter.
- Runtime and rendering differences between the two on-demand shells are not modelled: the grain factory versus `ActorProxy.Create` with `ConfigurationManager`, Orleans silo set-up and shutdown, and Service Fabric's client-side JSON parsing and printing of a status report versus Orleans' silo-side printing.
- `CommandLine.ToLowerInvariant`: lower-cases the ASCII letters only. The .NET culture-invariant mapping of other letters is not modelled. One such letter, the Kelvin sign, lower-cases to `k`.
