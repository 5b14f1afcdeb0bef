/**
 * The three runtimes implement one transition table: driven by the same
 * requests, their devices hold the same fields at every point.
 */
module Conformance {
  import opened DeviceModel
  import OrleansDevice
  import FabricDevice
  import AkkaDevice

  /** A call on the grain interface for each command. */
  method CallGrain(g: OrleansDevice.DeviceActor, rq: Request) returns (r: Outcome)
    modifies g.State, g
    ensures g.Snapshot() == Step(old(g.Snapshot()), rq.cmd, rq.at).0
    ensures r == Answer(Step(old(g.Snapshot()), rq.cmd, rq.at).1, InvalidOperationMessage(rq.cmd))
  {
    match rq.cmd
    case Start => r := g.Start(rq.at);
    case Stop => r := g.Stop();
    case Pause => r := g.Pause();
    case Resume => r := g.Resume();
    case SetFlux(farads) => r := g.SetFluxCapacitance(farads);
    case SetGravity(units) => r := g.SetGravitationalIntegrity(units);
    case ReportStatus => r := g.ReportStatus(rq.at);
  }

  /** A call through the actor proxy for each command. */
  method CallActor(a: FabricDevice.DeviceActor, rq: Request) returns (r: Outcome)
    requires a.Valid()
    modifies a
    ensures a.Valid()
    ensures a.Snapshot() == Step(old(a.Snapshot()), rq.cmd, rq.at).0
    ensures r == Answer(Step(old(a.Snapshot()), rq.cmd, rq.at).1, InvalidOperationMessage(rq.cmd))
  {
    match rq.cmd
    case Start => r := a.Start(rq.at);
    case Stop => r := a.Stop();
    case Pause => r := a.Pause();
    case Resume => r := a.Resume();
    case SetFlux(farads) => r := a.SetFluxCapacitance(farads);
    case SetGravity(units) => r := a.SetGravitationalIntegrity(units);
    case ReportStatus => r := a.ReportStatus(rq.at);
  }

  /** One request handed to all three devices. */
  method Deliver(g: OrleansDevice.DeviceActor, a: FabricDevice.DeviceActor, k: AkkaDevice.DeviceActor, rq: Request)
    returns (r1: Outcome, r2: Outcome, r3: Outcome)
    requires a.Valid() && k.Valid()
    requires g.Snapshot() == a.Snapshot() == k.Snapshot()
    modifies g.State, g, a, k
    ensures a.Valid() && k.Valid()
    ensures g.Snapshot() == a.Snapshot() == k.Snapshot() == Step(old(g.Snapshot()), rq.cmd, rq.at).0
    ensures r1 == r2 == Answer(Step(old(g.Snapshot()), rq.cmd, rq.at).1, InvalidOperationMessage(rq.cmd))
    ensures r1.Rejected? <==> r3.Rejected?
    ensures !r1.Rejected? ==> r1 == r3
  {
    r1 := CallGrain(g, rq);
    r2 := CallActor(a, rq);
    r3 := k.Receive(rq.cmd, rq.at);
  }

  /**
   * The answers the grain and the Service Fabric actor give to `rs` from the
   * initial device: each the verdict of the table on the device as it stood
   * before that request, with the exception texts of those two runtimes.
   */
  function Answers(rs: seq<Request>): (o: seq<Outcome>)
    ensures |o| == |rs|
  {
    seq(|rs|, i requires 0 <= i < |rs| =>
      Answer(Step(Run(Initial, rs[..i]), rs[i].cmd, rs[i].at).1, InvalidOperationMessage(rs[i].cmd)))
  }

  /** One more request extends both the run and the answers by one step. */
  lemma PrefixSnoc(rs: seq<Request>, i: nat)
    requires i < |rs|
    ensures Run(Initial, rs[..i + 1]) == Step(Run(Initial, rs[..i]), rs[i].cmd, rs[i].at).0
    ensures Answers(rs[..i + 1]) ==
      Answers(rs[..i]) + [Answer(Step(Run(Initial, rs[..i]), rs[i].cmd, rs[i].at).1, InvalidOperationMessage(rs[i].cmd))]
  {
    assert rs[..i + 1] == rs[..i] + [rs[i]];
    RunSnoc(Initial, rs[..i], rs[i]);
    var p, q := rs[..i + 1], rs[..i];
    var longer, shorter := Answers(p), Answers(q);
    forall j | 0 <= j < i
      ensures longer[j] == shorter[j]
    {
      assert p[..j] == q[..j];
    }
  }

  /** The Akka actor refuses exactly where the others do, and otherwise answers as they do. */
  predicate Agree(answers: seq<Outcome>, akkaAnswers: seq<Outcome>) {
    && |answers| == |akkaAnswers|
    && (forall i | 0 <= i < |answers| :: answers[i].Rejected? <==> akkaAnswers[i].Rejected?)
    && (forall i | 0 <= i < |answers| :: !answers[i].Rejected? ==> answers[i] == akkaAnswers[i])
  }

  /**
   * Creates one device in each runtime and hands every request to all three
   * in order. At the end all three hold `Run(Initial, rs)`; each answer is the
   * verdict of the table on the device as it stood before that request; the
   * grain and the Service Fabric actor gave identical answers all along, and
   * the Akka actor refused exactly the same requests.
   */
  method Lockstep(rs: seq<Request>)
    returns (g: OrleansDevice.DeviceActor, a: FabricDevice.DeviceActor, k: AkkaDevice.DeviceActor,
             answers: seq<Outcome>, fabricAnswers: seq<Outcome>, akkaAnswers: seq<Outcome>)
    ensures a.Valid() && k.Valid()
    ensures g.Snapshot() == a.Snapshot() == k.Snapshot() == Run(Initial, rs)
    ensures |answers| == |fabricAnswers| == |akkaAnswers| == |rs|
    ensures answers == fabricAnswers == Answers(rs)
    ensures forall i | 0 <= i < |rs| :: answers[i].Rejected? <==> akkaAnswers[i].Rejected?
    ensures forall i | 0 <= i < |rs| :: !answers[i].Rejected? ==> answers[i] == akkaAnswers[i]
  {
    g := new OrleansDevice.DeviceActor("device");
    a := new FabricDevice.DeviceActor("device");
    a.OnActivate();
    k := new AkkaDevice.DeviceActor("device");
    answers, fabricAnswers, akkaAnswers := [], [], [];
    var i := 0;
    while i < |rs|
      invariant 0 <= i <= |rs|
      invariant fresh(g.State)
      invariant a.Valid() && k.Valid()
      invariant g.Snapshot() == a.Snapshot() == k.Snapshot() == Run(Initial, rs[..i])
      invariant answers == fabricAnswers == Answers(rs[..i])
      invariant Agree(answers, akkaAnswers)
    {
      var r1, r2, r3 := Deliver(g, a, k, rs[i]);
      PrefixSnoc(rs, i);
      answers, fabricAnswers, akkaAnswers := answers + [r1], fabricAnswers + [r2], akkaAnswers + [r3];
      i := i + 1;
    }
    assert rs[..i] == rs;
  }
}
