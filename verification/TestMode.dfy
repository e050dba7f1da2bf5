// In test mode every run is finite, whatever loops the flows form: an icon
// that has started absorbs further flows.
module TestMode {
  import opened Common
  import opened FlowTables
  import opened Runs

  // Sizes of the tables and a rank by which linked jobnets are nested.
  datatype Frame = Frame(jobs: Jobs, plan: Plan, ids: nat, netIds: nat, rank: NetId -> nat)

  ghost predicate Nested(f: Frame)
  {
    && (forall id :: id in f.jobs ==> id < f.ids)
    && (forall id :: Linked(f.jobs, f.plan, id) ==> f.rank(f.plan.links[id]) < f.rank(f.jobs[id].net))
  }

  ghost predicate AllTest(jobs: Jobs) { forall id :: id in jobs ==> jobs[id].test }

  // The work an icon can still cause from the beginning, and from its status.
  function Cost(f: Frame, id: JobId): nat
    requires Nested(f) && id in f.jobs
    decreases f.rank(f.jobs[id].net), 0
  {
    if Linked(f.jobs, f.plan, id) then 8 + NetCost(f, f.plan.links[id], f.ids) else 4
  }

  function NetCost(f: Frame, net: NetId, n: nat): nat
    requires Nested(f)
    decreases f.rank(net), n
  {
    if n == 0 then 0
    else NetCost(f, net, n - 1) + if n - 1 in f.jobs && f.jobs[n-1].net == net then Cost(f, n - 1) else 0
  }

  function IconWork(f: Frame, id: JobId, status: Status): nat
    requires Nested(f) && id in f.jobs
  {
    match status
    case BEGIN => Cost(f, id)
    case READY => if Linked(f.jobs, f.plan, id) then 7 else 3
    case RUN => 2
    case ABORT => 1
    case _ => 0
  }

  function JobsWork(f: Frame, jobs: Jobs, n: nat): nat
    requires Nested(f) && jobs.Keys == f.jobs.Keys
  {
    if n == 0 then 0
    else JobsWork(f, jobs, n - 1) + if n - 1 in jobs then IconWork(f, n - 1, jobs[n-1].status) else 0
  }

  function NetsWork(nets: Nets, n: nat): nat
  {
    if n == 0 then 0 else NetsWork(nets, n - 1) + if n - 1 in nets && nets[n-1] == NET_READY then 4 else 0
  }

  ghost predicate Fits(f: Frame, w: World)
  {
    && Nested(f) && SameShape(f.jobs, w.jobs) && AllTest(w.jobs)
    && (forall net :: net in w.nets ==> net < f.netIds)
  }

  // A bound on the icon steps to come.
  function Work(f: Frame, w: World): nat
    requires Nested(f) && w.jobs.Keys == f.jobs.Keys
  {
    JobsWork(f, w.jobs, f.ids) + NetsWork(w.nets, f.netIds)
  }

  lemma MarkWork(f: Frame, jobs: Jobs, id: JobId, status: Status, n: nat)
    requires Nested(f) && jobs.Keys == f.jobs.Keys && id in jobs
    ensures JobsWork(f, Mark(jobs, id, status), n)
         == JobsWork(f, jobs, n) + if id < n then IconWork(f, id, status) - IconWork(f, id, jobs[id].status) else 0
  {
  }

  lemma ResetWork(f: Frame, jobs: Jobs, net: NetId, n: nat)
    requires Nested(f) && SameShape(f.jobs, jobs)
    ensures JobsWork(f, ResetNet(jobs, net), n) <= JobsWork(f, jobs, n) + NetCost(f, net, n)
  {
  }

  lemma {:induction false} StoreWork(f: Frame, jobs: Jobs, id: JobId, row: Job, n: nat)
    requires Nested(f) && jobs.Keys == f.jobs.Keys && id in jobs
    ensures JobsWork(f, jobs[id := row], n)
         == JobsWork(f, jobs, n) + if id < n then IconWork(f, id, row.status) - IconWork(f, id, jobs[id].status) else 0
  {
    assert jobs[id := row].Keys == jobs.Keys;
    if n > 0 {
      StoreWork(f, jobs, id, row, n - 1);
    }
  }

  lemma {:induction false} NetSetElsewhere(nets: Nets, net: NetId, status: NetStatus, n: nat)
    ensures n <= net ==> NetsWork(NetSet(nets, net, status), n) == NetsWork(nets, n)
  {
    if n > 0 {
      NetSetElsewhere(nets, net, status, n - 1);
    }
  }

  lemma {:induction false} NetSetWork(nets: Nets, net: NetId, status: NetStatus, n: nat)
    ensures NetsWork(NetSet(nets, net, status), n) <= NetsWork(nets, n) + if status == NET_READY then 4 else 0
    ensures net in nets && net < n && nets[net] == NET_READY && status != NET_READY ==>
              NetsWork(NetSet(nets, net, status), n) == NetsWork(nets, n) - 4
  {
    if n > 0 {
      NetSetWork(nets, net, status, n - 1);
      NetSetElsewhere(nets, net, status, n - 1);
    }
  }

  // A flow never adds work.
  lemma ArriveWork(f: Frame, jobs: Jobs, dst: JobId)
    requires Nested(f) && SameShape(f.jobs, jobs) && AllTest(jobs)
    ensures Arrive(jobs, f.plan.links, dst).Arrived? ==>
      SameShape(f.jobs, Arrive(jobs, f.plan.links, dst).jobs)
      && JobsWork(f, Arrive(jobs, f.plan.links, dst).jobs, f.ids) <= JobsWork(f, jobs, f.ids)
  {
    var links := f.plan.links;
    if dst in jobs && Judge(jobs[dst]).Take? {
      var v := Judge(jobs[dst]);
      var row := jobs[dst].(status := v.status, endCount := v.endCount);
      if jobs[dst].icon.JobnetIcon? && v.status == READY {
        if dst in links {
          var reset := ResetNet(jobs, links[dst]);
          assert Linked(f.jobs, f.plan, dst);
          assert reset[dst] == jobs[dst];
          ResetWork(f, jobs, links[dst], f.ids);
          StoreWork(f, reset, dst, row, f.ids);
        }
      } else {
        StoreWork(f, jobs, dst, row, f.ids);
      }
    }
  }

  // No work has been added; if src held work, it still does, or some has been used up.
  ghost predicate Spent(f: Frame, start: Jobs, now: Jobs, src: JobId)
  {
    && Nested(f) && SameShape(f.jobs, start) && SameShape(f.jobs, now) && AllTest(now) && src in now
    && JobsWork(f, now, f.ids) <= JobsWork(f, start, f.ids)
    && (IconWork(f, src, start[src].status) >= 1 ==>
          IconWork(f, src, now[src].status) >= 1 || JobsWork(f, now, f.ids) < JobsWork(f, start, f.ids))
  }

  lemma DeliverSpent(f: Frame, start: Jobs, now: Jobs, src: JobId, dst: JobId)
    requires Spent(f, start, now, src)
    ensures Spent(f, start, Deliver(now, f.plan.links, src, dst), src)
  {
    var links := f.plan.links;
    DeliverShape(now, links, src, dst);
    match Arrive(now, links, dst)
    case Refused => MarkWork(f, now, src, ENDERR, f.ids);
    case Absorbed =>
    case Arrived(js) =>
      ArriveWork(f, now, dst);
      assert js[src].status == now[src].status || js[src].status == BEGIN || js[src].status == READY;
  }

  lemma {:induction false} DeliverAllSpent(f: Frame, start: Jobs, src: JobId, dsts: seq<JobId>)
    requires Spent(f, start, start, src)
    ensures Spent(f, start, DeliverAll(start, f.plan.links, src, dsts), src)
  {
    if dsts != [] {
      DeliverAllSpent(f, start, src, dsts[..|dsts|-1]);
      DeliverSpent(f, start, DeliverAll(start, f.plan.links, src, dsts[..|dsts|-1]), src, dsts[|dsts|-1]);
    }
  }

  lemma CompleteWork(f: Frame, jobs: Jobs, nets: Nets, id: JobId, kind: FlowKind)
    requires Nested(f) && SameShape(f.jobs, jobs) && AllTest(jobs) && id in jobs
    ensures var js := Complete(jobs, f.plan.flows, f.plan.links, nets, id, kind);
      && SameShape(f.jobs, js) && IconWork(f, id, js[id].status) == 0
      && JobsWork(f, js, f.ids) <= JobsWork(f, jobs, f.ids) - if Going(jobs[id]) then 1 else 0
  {
    CompleteShape(jobs, f.plan.flows, f.plan.links, nets, id, kind);
    var out := Outgoing(f.plan.flows, id);
    if out == [] {
      MarkWork(f, jobs, id, ENDERR, f.ids);
    } else if !Running(nets, out[0].net) {
      MarkWork(f, jobs, id, RUNERR, f.ids);
    } else {
      DeliverAllSpent(f, jobs, id, Targets(out, kind));
      MarkWork(f, DeliverAll(jobs, f.plan.links, id, Targets(out, kind)), id, END, f.ids);
    }
  }

  lemma FailWork(f: Frame, w: World, id: JobId, iconStatus: int)
    requires Nested(f) && SameShape(f.jobs, w.jobs) && AllTest(w.jobs) && id in w.jobs
    ensures var js := Failed(f.plan, w, id, iconStatus);
      js.Keys == f.jobs.Keys && JobsWork(f, js, f.ids) <= JobsWork(f, w.jobs, f.ids) - if Going(w.jobs[id]) then 1 else 0
  {
    if FailGoesOn(w.jobs[id], iconStatus) {
      CompleteWork(f, w.jobs, w.nets, id, NORMAL);
      MarkWork(f, Complete(w.jobs, f.plan.flows, f.plan.links, w.nets, id, NORMAL), id, RUNERR, f.ids);
    } else {
      MarkWork(f, w.jobs, id, RUNERR, f.ids);
    }
  }

  lemma FitsNext(f: Frame, w: World, s: Step)
    requires Fits(f, w) && Enabled(f.plan, w, s)
    ensures Fits(f, Next(f.plan, w, s))
  {
    NextShape(f.plan, w, s);
  }

  lemma ResyncWork(f: Frame, w: World, id: JobId, how: Again)
    requires Fits(f, w) && Enabled(f.plan, w, Resync(id, how))
    ensures var js := Next(f.plan, w, Resync(id, how)).jobs;
      js.Keys == f.jobs.Keys && JobsWork(f, js, f.ids) <= JobsWork(f, w.jobs, f.ids) + if how.Revive? then 2 else 0
  {
    match how
    case Revive => MarkWork(f, w.jobs, id, RUN, f.ids);
    case Finished => CompleteWork(f, w.jobs, w.nets, id, NORMAL);
    case FailAgain => FailWork(f, w, id, JOBNET_STATUS);
    case Stop => MarkWork(f, w.jobs, id, ENDERR, f.ids);
  }

  lemma LaunchWork(f: Frame, w: World, net: NetId, start: JobId)
    requires Fits(f, w) && Enabled(f.plan, w, Launch(net, start))
    ensures var next := Next(f.plan, w, Launch(net, start));
      next.jobs.Keys == f.jobs.Keys && Work(f, next) < Work(f, w)
  {
    MarkWork(f, w.jobs, start, READY, f.ids);
    NetSetWork(w.nets, net, NET_RUN, f.netIds);
  }

  lemma RunWork(f: Frame, w: World, id: JobId)
    requires Fits(f, w) && Enabled(f.plan, w, RunIcon(id))
    ensures var next := Next(f.plan, w, RunIcon(id));
      next.jobs.Keys == f.jobs.Keys && Work(f, next) < Work(f, w)
  {
    MarkWork(f, w.jobs, id, RUN, f.ids);
    if Linked(w.jobs, f.plan, id) {
      NetSetWork(w.nets, f.plan.links[id], NET_READY, f.netIds);
    }
  }

  // Every icon step uses up work; following a jobnet adds none, except that a
  // revived jobnet icon runs again.
  lemma StepWork(f: Frame, w: World, s: Step)
    requires Fits(f, w) && Enabled(f.plan, w, s)
    ensures Fits(f, Next(f.plan, w, s))
    ensures Work(f, Next(f.plan, w, s)) + (if IconStep(s) then 1 else 0) <= Work(f, w) + if Revives(s) then 2 else 0
  {
    FitsNext(f, w, s);
    match s
    case Launch(net, start) => LaunchWork(f, w, net, start);
    case RunIcon(id) => RunWork(f, w, id);
    case Finish(id, kind) => CompleteWork(f, w.jobs, w.nets, id, kind);
    case FinishEnd(id) => MarkWork(f, w.jobs, id, END, f.ids);
    case StopIcon(id) => MarkWork(f, w.jobs, id, ENDERR, f.ids);
    case AbortIcon(id) => MarkWork(f, w.jobs, id, ABORT, f.ids);
    case FailIcon(id, iconStatus) => FailWork(f, w, id, iconStatus);
    case Resync(id, how) => ResyncWork(f, w, id, how);
    case NetChange(net, status) => NetSetWork(w.nets, net, status, f.netIds);
  }

  // A run in test mode takes no more icon steps than there was work at its start,
  // and two for each time a jobnet icon is revived after its jobnet.
  lemma {:induction false} RunsAreFinite(f: Frame, states: seq<World>, steps: seq<Step>)
    requires IsRun(f.plan, states, steps) && Fits(f, states[0])
    ensures Fits(f, states[|steps|])
    ensures IconSteps(steps) + Work(f, states[|steps|]) <= Work(f, states[0]) + 2 * Revivals(steps)
  {
    if steps != [] {
      var n := |steps| - 1;
      RunsAreFinite(f, states[..|steps|], steps[..n]);
      assert states[..|steps|][n] == states[n];
      StepWork(f, states[n], steps[n]);
    }
  }

  // ---- how often an icon starts -----------------------------------------------

  // The flows of one completion that reset a jobnet.
  function Resets(jobs: Jobs, links: Links, src: JobId, dsts: seq<JobId>, net: NetId): nat
  {
    if dsts == [] then 0
    else
      var before := DeliverAll(jobs, links, src, dsts[..|dsts|-1]);
      Resets(jobs, links, src, dsts[..|dsts|-1], net) + if ResetsNet(before, links, dsts[|dsts|-1], net) then 1 else 0
  }

  // The arrival makes a jobnet icon READY that links the jobnet.
  predicate ResetsNet(jobs: Jobs, links: Links, dst: JobId, net: NetId)
  {
    && dst in jobs && jobs[dst].icon.JobnetIcon? && dst in links && links[dst] == net
    && Judge(jobs[dst]).Take? && Judge(jobs[dst]).status == READY
  }

  function StepResets(p: Plan, w: World, s: Step, net: NetId): nat
  {
    if Walks(w.jobs, s) then
      var out := Outgoing(p.flows, s.id);
      if out != [] && Running(w.nets, out[0].net) then Resets(w.jobs, p.links, s.id, Targets(out, WalkKind(s)), net) else 0
    else 0
  }

  // Whether the icon may still be run without a reset.
  function MayStart(jobs: Jobs, id: JobId): nat
  {
    if id in jobs && (jobs[id].status == BEGIN || jobs[id].status == READY) then 1 else 0
  }

  lemma {:induction false} DeliverAllStarts(jobs: Jobs, links: Links, src: JobId, dsts: seq<JobId>, id: JobId)
    requires id in jobs && AllTest(jobs)
    ensures MayStart(DeliverAll(jobs, links, src, dsts), id) <= MayStart(jobs, id) + Resets(jobs, links, src, dsts, jobs[id].net)
  {
    if dsts != [] {
      var front, dst := dsts[..|dsts|-1], dsts[|dsts|-1];
      DeliverAllStarts(jobs, links, src, front, id);
      DeliverAllShape(jobs, links, src, front);
    }
  }

  lemma StepStarts(p: Plan, w: World, s: Step, id: JobId)
    requires Enabled(p, w, s) && AllTest(w.jobs) && id in w.jobs
    ensures MayStart(Next(p, w, s).jobs, id) + (if s == RunIcon(id) then 1 else 0)
         <= MayStart(w.jobs, id) + StepResets(p, w, s, w.jobs[id].net) + if Launches(s, id) then 1 else 0
  {
    if Walks(w.jobs, s) {
      DeliverAllStarts(w.jobs, p.links, s.id, Targets(Outgoing(p.flows, s.id), WalkKind(s)), id);
    }
  }

  function RunResets(p: Plan, states: seq<World>, steps: seq<Step>, net: NetId): nat
    requires |states| > |steps|
  {
    if steps == [] then 0
    else
      var n := |steps| - 1;
      RunResets(p, states, steps[..n], net) + StepResets(p, states[n], steps[n], net)
  }

  // In test mode an icon is started at most once, plus once for each time its
  // jobnet is reset by a jobnet icon becoming READY and, for a start icon, each
  // time its jobnet is launched.
  lemma {:induction false} StartsAtMostOnce(p: Plan, states: seq<World>, steps: seq<Step>, id: JobId)
    requires IsRun(p, states, steps) && AllTest(states[0].jobs)
    requires id in states[0].jobs
    ensures !states[0].jobs[id].icon.StartIcon? ==> LaunchCount(steps, id) == 0
    ensures SameShape(states[0].jobs, states[|steps|].jobs)
    ensures Starts(steps, id) + MayStart(states[|steps|].jobs, id)
         <= MayStart(states[0].jobs, id) + RunResets(p, states, steps, states[0].jobs[id].net) + LaunchCount(steps, id)
  {
    if steps != [] {
      var n := |steps| - 1;
      StartsAtMostOnce(p, states[..|steps|], steps[..n], id);
      SameResets(p, states[..|steps|], states, steps[..n], states[0].jobs[id].net);
      assert states[..|steps|][n] == states[n] && states[..|steps|][0] == states[0];
      StepStarts(p, states[n], steps[n], id);
      NextShape(p, states[n], steps[n]);
    }
  }

  lemma SameResets(p: Plan, a: seq<World>, b: seq<World>, steps: seq<Step>, net: NetId)
    requires |steps| < |a| <= |b| && forall i :: 0 <= i < |a| ==> a[i] == b[i]
    ensures RunResets(p, a, steps, net) == RunResets(p, b, steps, net)
  {
  }
}
