/**
 * The per-device lifecycle state machine shared by the three actor runtimes.
 *
 * A device is Stopped, Running or Paused; it remembers when it was started,
 * a 32-bit flux capacitance and a double-precision gravitational integrity.
 * Every command is gated on the current status; a refused command changes
 * nothing. The clock is the parameter `now`.
 */
module DeviceModel {
  import opened Wrappers

  /** A C# `int`. */
  newtype int32 = x: int | -0x8000_0000 <= x < 0x8000_0000

  datatype Status = Stopped | Running | Paused

  /**
   * One device's fields. `started` is a clock reading; `gravity` stands for a
   * C# `double` that is only ever stored and copied.
   */
  datatype Device = Device(status: Status, started: Option<int>, flux: int32, gravity: real)

  datatype Command =
    | Start
    | Stop
    | Pause
    | Resume
    | SetFlux(farads: int32)
    | SetGravity(units: real)
    | ReportStatus

  /** A command together with the clock reading at which the device handles it. */
  datatype Request = Request(cmd: Command, at: int)

  /** What a status report carries besides the device id. */
  datatype StatusReport = StatusReport(status: Status, uptime: int, flux: int32, gravity: real)

  /** The implementation-independent answer to a command. */
  datatype Verdict = Accepted | Refused | Reported(report: StatusReport)

  /** The answer as an implementation gives it: refusals carry that implementation's text. */
  datatype Outcome = Done | Rejected(message: string) | Answered(report: StatusReport)

  /** The state of a device that has never been started. */
  const Initial: Device := Device(Stopped, None, 0, 0.0)

  /** A device is stopped exactly when it has no start time. */
  predicate Inv(d: Device) {
    d.status == Stopped <==> d.started == None
  }

  /** The transition table read state by state: which commands a status admits. */
  predicate Permitted(s: Status, cmd: Command) {
    match s
    case Stopped => cmd.Start? || cmd.ReportStatus?
    case Running => !cmd.Start? && !cmd.Resume?
    case Paused => cmd.Stop? || cmd.Resume? || cmd.ReportStatus?
  }

  /** The status a permitted command leads to. */
  function Target(s: Status, cmd: Command): Status {
    match cmd
    case Start => Running
    case Stop => Stopped
    case Pause => Paused
    case Resume => Running
    case _ => s
  }

  /** Time since the recorded start; a device with no start time reads zero. */
  function Uptime(d: Device, now: int): (u: int)
    ensures d.started.None? ==> u == 0
    ensures d.started.Some? && d.started.value <= now ==> u >= 0
    ensures d.started.Some? ==> now == d.started.value + u
  {
    match d.started
    case None => 0
    case Some(t) => now - t
  }

  function Report(d: Device, now: int): (r: StatusReport)
    ensures r.status == d.status && r.flux == d.flux && r.gravity == d.gravity
    ensures d.started.None? ==> r.uptime == 0
    ensures d.started.Some? ==> r.uptime == now - d.started.value
    ensures Inv(d) && d.status == Stopped ==> r.uptime == 0
  {
    StatusReport(d.status, Uptime(d, now), d.flux, d.gravity)
  }

  /**
   * One command, handled the way each grain or actor method does it: check
   * the status, and only then write the fields.
   */
  function Step(d: Device, cmd: Command, now: int): (t: (Device, Verdict))
    // the command is refused exactly when the table does not admit it, and a refusal changes nothing
    ensures t.1.Refused? <==> !Permitted(d.status, cmd)
    ensures t.1.Refused? ==> t.0 == d
    ensures t.0.status == (if Permitted(d.status, cmd) then Target(d.status, cmd) else d.status)
    // the invariant is kept
    ensures Inv(d) ==> Inv(t.0)
    // a report is the only answer to ReportStatus, and it mutates nothing
    ensures t.1.Reported? <==> cmd.ReportStatus?
    ensures t.1.Reported? ==> t.0 == d && t.1.report == Report(d, now)
    // what each accepted command writes
    ensures t.1.Accepted? && cmd.Start? ==> t.0 == Device(Running, Some(now), 1, 1.0)
    ensures t.1.Accepted? && cmd.Stop? ==> t.0.started == None
    ensures t.1.Accepted? && cmd.SetFlux? ==> t.0.flux == cmd.farads
    ensures t.1.Accepted? && cmd.SetGravity? ==> t.0.gravity == cmd.units
    // and nothing else: each field is written only by the commands that own it
    ensures t.0.started != d.started ==> cmd.Start? || cmd.Stop?
    ensures t.0.flux != d.flux ==> cmd.Start? || cmd.SetFlux?
    ensures t.0.gravity != d.gravity ==> cmd.Start? || cmd.SetGravity?
  {
    match cmd
    case Start =>
      if d.status != Stopped then (d, Refused)
      else (Device(Running, Some(now), 1, 1.0), Accepted)
    case Stop =>
      if d.status == Stopped then (d, Refused)
      else (d.(status := Stopped, started := None), Accepted)
    case Pause =>
      if d.status != Running then (d, Refused)
      else (d.(status := Paused), Accepted)
    case Resume =>
      if d.status != Paused then (d, Refused)
      else (d.(status := Running), Accepted)
    case SetFlux(farads) =>
      if d.status != Running then (d, Refused)
      else (d.(flux := farads), Accepted)
    case SetGravity(units) =>
      if d.status != Running then (d, Refused)
      else (d.(gravity := units), Accepted)
    case ReportStatus =>
      (d, Reported(Report(d, now)))
  }

  /** An implementation's answer, given the text it uses for a refusal. */
  function Answer(v: Verdict, refusal: string): (r: Outcome)
    ensures r.Done? <==> v.Accepted?
    ensures r.Rejected? <==> v.Refused?
    ensures r.Rejected? ==> r.message == refusal
    ensures r.Answered? ==> v == Reported(r.report)
  {
    match v
    case Accepted => Done
    case Refused => Rejected(refusal)
    case Reported(report) => Answered(report)
  }

  /**
   * The text of the InvalidOperationException a refused command throws; the
   * Orleans grain and the Service Fabric actor use the same texts.
   */
  function InvalidOperationMessage(cmd: Command): (m: string)
    // every command that can be refused has a text; ReportStatus, never refused, has none
    ensures m == "" <==> cmd.ReportStatus?
    ensures forall s :: !Permitted(s, cmd) ==> m != ""
  {
    match cmd
    case Start => "Device not stopped."
    case Stop => "Device is already stopped."
    case Pause => "Device not running."
    case Resume => "Device not paused."
    case SetFlux(_) => "Cannot change state; device is not running."
    case SetGravity(_) => "Cannot change state; device is not running."
    case ReportStatus => ""
  }

  /** The device after handling a sequence of requests in order, one at a time. */
  function Run(d: Device, rs: seq<Request>): (e: Device)
    // status reports never change a device
    ensures (forall i | 0 <= i < |rs| :: rs[i].cmd.ReportStatus?) ==> e == d
    decreases |rs|
  {
    if rs == [] then d else Run(Step(d, rs[0].cmd, rs[0].at).0, rs[1..])
  }

  /** Handling one more request extends a run by one step. */
  lemma {:induction false} RunSnoc(d: Device, rs: seq<Request>, r: Request)
    ensures Run(d, rs + [r]) == Step(Run(d, rs), r.cmd, r.at).0
    decreases |rs|
  {
    if rs == [] {
      assert [] + [r] == [r];
    } else {
      assert (rs + [r])[1..] == rs[1..] + [r];
      RunSnoc(Step(d, rs[0].cmd, rs[0].at).0, rs[1..], r);
    }
  }

  /** `status == Stopped <==> started == None` holds after any sequence of commands. */
  lemma {:induction false} RunKeepsInv(d: Device, rs: seq<Request>)
    requires Inv(d)
    ensures Inv(Run(d, rs))
    decreases |rs|
  {
    if rs != [] {
      RunKeepsInv(Step(d, rs[0].cmd, rs[0].at).0, rs[1..]);
    }
  }

  /** Every reachable device satisfies the invariant. */
  lemma ReachableInv(rs: seq<Request>)
    ensures Inv(Run(Initial, rs))
  {
    RunKeepsInv(Initial, rs);
  }

  /**
   * Uptime is never negative when the clock at report time is no earlier than
   * the start time of the device and than every request handled since.
   */
  lemma {:induction false} UptimeNonNegative(d: Device, rs: seq<Request>, now: int)
    requires d.started.Some? ==> d.started.value <= now
    requires forall i | 0 <= i < |rs| :: rs[i].at <= now
    ensures Uptime(Run(d, rs), now) >= 0
    decreases |rs|
  {
    if rs != [] {
      assert rs[0].at <= now;
      var d' := Step(d, rs[0].cmd, rs[0].at).0;
      assert forall i | 0 <= i < |rs[1..]| :: rs[1..][i].at <= now by {
        forall i | 0 <= i < |rs[1..]| ensures rs[1..][i].at <= now {
          assert rs[1..][i] == rs[i + 1];
        }
      }
      UptimeNonNegative(d', rs[1..], now);
    }
  }

  /**
   * Flux writes to a running device are serialised: after any number of them
   * the device is still running and holds the last value written.
   */
  lemma {:induction false} LastFluxWins(d: Device, rs: seq<Request>)
    requires d.status == Running
    requires |rs| > 0
    requires forall i | 0 <= i < |rs| :: rs[i].cmd.SetFlux?
    ensures Run(d, rs) == d.(flux := rs[|rs| - 1].cmd.farads)
    decreases |rs|
  {
    var d' := Step(d, rs[0].cmd, rs[0].at).0;
    if |rs| > 1 {
      assert forall i | 0 <= i < |rs[1..]| :: rs[1..][i].cmd.SetFlux? by {
        forall i | 0 <= i < |rs[1..]| ensures rs[1..][i].cmd.SetFlux? {
          assert rs[1..][i] == rs[i + 1];
        }
      }
      LastFluxWins(d', rs[1..]);
    }
  }

  /** Start followed by a status report shows a fresh running device. */
  lemma StartThenReport(d: Device, t0: int, t1: int)
    requires d.status == Stopped
    ensures var s := Step(d, Start, t0).0;
      Step(s, ReportStatus, t1).1 == Reported(StatusReport(Running, t1 - t0, 1, 1.0))
  {
  }

  /**
   * Start, Pause, Resume and Stop in turn bring any stopped device back to
   * Stopped without a start time, so its uptime reads zero; flux and gravity
   * keep the values Start gave them.
   */
  lemma {:induction false} FullCycle(d: Device, t0: int, t1: int, t2: int, t3: int, now: int)
    requires d.status == Stopped
    ensures var e := Run(d, [Request(Start, t0), Request(Pause, t1), Request(Resume, t2), Request(Stop, t3)]);
      e == Device(Stopped, None, 1, 1.0) && Uptime(e, now) == 0
  {
    var rs := [Request(Start, t0), Request(Pause, t1), Request(Resume, t2), Request(Stop, t3)];
    var d1 := Device(Running, Some(t0), 1, 1.0);
    var d2 := d1.(status := Paused);
    var d3 := d2.(status := Running);
    var d4 := Device(Stopped, None, 1, 1.0);
    assert Run(d, rs) == Run(d1, rs[1..]);
    assert rs[1..][1..] == rs[2..];
    assert Run(d1, rs[1..]) == Run(d2, rs[2..]);
    assert rs[2..][1..] == rs[3..];
    assert Run(d2, rs[2..]) == Run(d3, rs[3..]);
    assert rs[3..][1..] == [];
    assert Run(d3, rs[3..]) == Run(d4, []);
  }

  /** A flux write to a paused device is refused and the stored flux is kept. */
  lemma PausedRefusesFlux(d: Device, farads: int32, now: int)
    requires d.status == Paused
    ensures Step(d, SetFlux(farads), now) == (d, Refused)
  {
  }
}
