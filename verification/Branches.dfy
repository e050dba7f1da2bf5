// Branches of an IF and where they end, over runs: the end of an IF and a loop
// icon start with the first flow that enters them, whatever their boot count
// (src/jalibs/jaflow.c).
module Branches {
  import opened Common
  import opened FlowTables
  import opened Arrivals
  import opened Runs
  import opened TokenFlow

  // Such an icon has counted nothing while it is at BEGIN.
  predicate FirstCome(j: Job) { (j.icon.IfEndIcon? || j.icon.LIcon?) && j.status == BEGIN ==> j.endCount == 0 }

  lemma {:induction false} WalkFirstCome(jobs: Jobs, links: Links, src: JobId, dsts: seq<JobId>, d: JobId)
    requires d in jobs && FirstCome(jobs[d])
    ensures var js := DeliverAll(jobs, links, src, dsts); d in js && FirstCome(js[d])
  {
    if dsts != [] {
      WalkFirstCome(jobs, links, src, dsts[..|dsts|-1], d);
    }
  }

  lemma CompleteFirstCome(p: Plan, w: World, src: JobId, kind: FlowKind, d: JobId)
    requires d in w.jobs && FirstCome(w.jobs[d])
    ensures var js := Complete(w.jobs, p.flows, p.links, w.nets, src, kind); d in js && FirstCome(js[d])
  {
    WalkFirstCome(w.jobs, p.links, src, Targets(Outgoing(p.flows, src), kind), d);
  }

  lemma StepFirstCome(p: Plan, w: World, s: Step, d: JobId)
    requires Enabled(p, w, s) && d in w.jobs && FirstCome(w.jobs[d])
    ensures d in Next(p, w, s).jobs && FirstCome(Next(p, w, s).jobs[d])
  {
    match s {
      case Finish(id, kind) => CompleteFirstCome(p, w, id, kind, d);
      case FailIcon(id, _) => CompleteFirstCome(p, w, id, NORMAL, d);
      case Resync(id, _) => CompleteFirstCome(p, w, id, NORMAL, d);
      case _ =>
    }
  }

  // In every state of every run from a loaded or reset jobnet.
  lemma {:induction false} RunFirstCome(p: Plan, states: seq<World>, net: NetId, steps: seq<Step>, n: nat, d: JobId)
    requires IsRun(p, states, steps) && n <= |steps| && Fresh(states[0].jobs, net) && In(states[0].jobs, d, net)
    ensures In(states[n].jobs, d, net) && FirstCome(states[n].jobs[d])
  {
    if n > 0 {
      RunFirstCome(p, states, net, steps, n - 1, d);
      StepFirstCome(p, states[n-1], steps[n-1], d);
      NextShape(p, states[n-1], steps[n-1]);
    }
  }

  // So the first completion with a flow into such an icon starts it, with one
  // arrival counted, however many of its flows lead there.
  lemma FirstFlowStarts(p: Plan, states: seq<World>, net: NetId, steps: seq<Step>, n: nat, d: JobId, f: Flow)
    requires IsRun(p, states, steps) && n < |steps| && Fresh(states[0].jobs, net) && In(states[0].jobs, d, net)
    requires steps[n].Finish? && f in p.flows && Taken(f, steps[n].id, d, steps[n].kind) && d != steps[n].id
    requires GoesOn(p.flows, states[n].nets, steps[n].id)
    requires Spares(states[n].jobs, p.flows, p.links, steps[n].id, steps[n].kind, d)
    requires states[n].jobs[d].icon == IfEndIcon || states[n].jobs[d].icon == LIcon
    requires states[n].jobs[d].status == BEGIN
    ensures d in states[n+1].jobs
    ensures states[n+1].jobs[d] == states[n].jobs[d].(status := READY, endCount := 1)
  {
    var w, s := states[n], steps[n];
    RunFirstCome(p, states, net, steps, n, d);
    CompletedRow(w.jobs, p.flows, p.links, w.nets, s.id, s.kind, d);
    var i: nat :| i < |p.flows| && p.flows[i] == f;
    assert i in Entries(p.flows, s.id, d, s.kind);
  }
}
