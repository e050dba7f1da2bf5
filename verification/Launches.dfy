// How often the start icon of a jobnet starts: once for each launch, and once
// for each time the icon that encloses the jobnet is started.
module Launches {
  import opened Common
  import opened FlowTables
  import opened Runs

  predicate NoFlowInto(p: Plan, id: JobId) { forall f :: f in p.flows ==> f.end != id }

  function ReadyNow(jobs: Jobs, id: JobId): nat { if Has(jobs, id, READY) then 1 else 0 }

  // Flows to other icons leave an icon as it is, reset it, or mark it ENDERR.
  lemma {:induction false} WalkElsewhere(jobs: Jobs, links: Links, src: JobId, dsts: seq<JobId>, id: JobId)
    requires id !in dsts
    ensures ReadyNow(DeliverAll(jobs, links, src, dsts), id) <= ReadyNow(jobs, id)
  {
    if dsts != [] {
      var front, dst := dsts[..|dsts|-1], dsts[|dsts|-1];
      assert dst in dsts;
      WalkElsewhere(jobs, links, src, front, id);
    }
  }

  lemma CompleteElsewhere(p: Plan, jobs: Jobs, nets: Nets, src: JobId, kind: FlowKind, id: JobId)
    requires NoFlowInto(p, id)
    ensures ReadyNow(Complete(jobs, p.flows, p.links, nets, src, kind), id) <= ReadyNow(jobs, id)
    ensures src == id ==> ReadyNow(Complete(jobs, p.flows, p.links, nets, src, kind), id) == 0
  {
    var dsts := Targets(Outgoing(p.flows, src), kind);
    if id in dsts {
      TargetsAll(Outgoing(p.flows, src), kind, id);
      TargetOf(p.flows, src, id);
    }
    WalkElsewhere(jobs, p.links, src, dsts, id);
  }

  // An icon no flow enters becomes READY only by a launch.
  lemma StepReady(p: Plan, w: World, s: Step, id: JobId)
    requires Enabled(p, w, s) && NoFlowInto(p, id)
    ensures ReadyNow(Next(p, w, s).jobs, id) + (if s == RunIcon(id) then 1 else 0)
         <= ReadyNow(w.jobs, id) + if Launches(s, id) then 1 else 0
  {
    if Walks(w.jobs, s) {
      CompleteElsewhere(p, w.jobs, w.nets, s.id, WalkKind(s), id);
    }
  }

  lemma {:induction false} StartsByLaunches(p: Plan, states: seq<World>, steps: seq<Step>, id: JobId)
    requires IsRun(p, states, steps) && NoFlowInto(p, id)
    ensures Starts(steps, id) + ReadyNow(states[|steps|].jobs, id) <= ReadyNow(states[0].jobs, id) + LaunchCount(steps, id)
  {
    if steps != [] {
      var n := |steps| - 1;
      StartsByLaunches(p, states[..n+1], steps[..n], id);
      assert states[..n+1][n] == states[n] && states[..n+1][0] == states[0];
      StepReady(p, states[n], steps[n], id);
    }
  }

  // ---- launches ---------------------------------------------------------------

  function NetReady(nets: Nets, net: NetId): nat { if net in nets && nets[net] == NET_READY then 1 else 0 }

  // The jobnet is linked by no other icon.
  ghost predicate Encloses(p: Plan, jobs: Jobs, owner: JobId, net: NetId)
  {
    forall id :: Linked(jobs, p, id) && p.links[id] == net ==> id == owner
  }

  lemma StepNetReady(p: Plan, w: World, s: Step, owner: JobId, net: NetId)
    requires Enabled(p, w, s) && Encloses(p, w.jobs, owner, net)
    ensures NetReady(Next(p, w, s).nets, net) + (if s.Launch? && s.net == net then 1 else 0)
         <= NetReady(w.nets, net) + if s == RunIcon(owner) then 1 else 0
    ensures Encloses(p, Next(p, w, s).jobs, owner, net)
  {
    NextShape(p, w, s);
  }

  // Launches of a start icon are launches of its jobnet, and each follows a start
  // of the enclosing icon.
  lemma {:induction false} LaunchesByStarts(p: Plan, states: seq<World>, steps: seq<Step>, start: JobId, owner: JobId, net: NetId)
    requires IsRun(p, states, steps) && Encloses(p, states[0].jobs, owner, net)
    requires start in states[0].jobs && states[0].jobs[start].net == net
    ensures Encloses(p, states[|steps|].jobs, owner, net)
    ensures start in states[|steps|].jobs && states[|steps|].jobs[start].net == net
    ensures LaunchCount(steps, start) + NetReady(states[|steps|].nets, net) <= NetReady(states[0].nets, net) + Starts(steps, owner)
  {
    if steps != [] {
      var n := |steps| - 1;
      LaunchesByStarts(p, states[..n+1], steps[..n], start, owner, net);
      assert states[..n+1][n] == states[n] && states[..n+1][0] == states[0];
      StepNetReady(p, states[n], steps[n], owner, net);
      NextShape(p, states[n], steps[n]);
    }
  }

  // A start icon no flow enters starts at most once for each start of the icon
  // that encloses its jobnet, beyond what was ready at first.
  lemma StartsWithOwner(p: Plan, states: seq<World>, steps: seq<Step>, start: JobId, owner: JobId, net: NetId)
    requires IsRun(p, states, steps) && NoFlowInto(p, start) && Encloses(p, states[0].jobs, owner, net)
    requires start in states[0].jobs && states[0].jobs[start].net == net
    ensures Starts(steps, start) <= Starts(steps, owner) + ReadyNow(states[0].jobs, start) + NetReady(states[0].nets, net)
  {
    StartsByLaunches(p, states, steps, start);
    LaunchesByStarts(p, states, steps, start, owner, net);
  }
}
