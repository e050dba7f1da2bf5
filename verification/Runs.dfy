// Runs of the server over the icons: a jobnet is launched, a ready icon is run,
// a running icon is completed or fails, and jobnets change their status. Each
// step is one transaction; which step comes next is up to the server.
module Runs {
  import opened Common
  import opened FlowTables

  datatype World = World(jobs: Jobs, nets: Nets)

  // The tables no step changes.
  datatype Plan = Plan(flows: seq<Flow>, links: Links)

  // What jajobnet_run_sync may do to the icon of a jobnet once that icon is RUNERR.
  datatype Again = Revive | Finished | FailAgain | Stop

  datatype Step =
    | Launch(net: NetId, start: JobId)       // a ready jobnet: its start icon becomes READY
    | RunIcon(id: JobId)                     // ja_set_run; a jobnet icon readies its jobnet
    | Finish(id: JobId, kind: FlowKind)      // ja_flow, of a running icon or of a ready one to be skipped
    | FinishEnd(id: JobId)                   // ja_set_end, for an END icon
    | FailIcon(id: JobId, iconStatus: int)   // ja_set_runerr
    | StopIcon(id: JobId)                    // ja_set_enderr
    | AbortIcon(id: JobId)                   // a running icon is told to stop
    | Resync(id: JobId, how: Again)          // a failed jobnet icon follows its jobnet
    | NetChange(net: NetId, status: NetStatus)

  predicate Linked(jobs: Jobs, p: Plan, id: JobId) { id in jobs && jobs[id].icon.JobnetIcon? && id in p.links }

  predicate Has(jobs: Jobs, id: JobId, status: Status) { id in jobs && jobs[id].status == status }

  predicate Going(j: Job) { j.status == READY || j.status == RUN || j.status == ABORT }

  predicate Enabled(p: Plan, w: World, s: Step)
  {
    match s
    case Launch(net, start) =>
      net in w.nets && w.nets[net] == NET_READY && start in w.jobs && w.jobs[start].net == net && w.jobs[start].icon.StartIcon?
    case RunIcon(id) => Has(w.jobs, id, READY)
    case Finish(id, _) => id in w.jobs && Going(w.jobs[id]) && w.jobs[id].status != ABORT && !w.jobs[id].icon.EndIcon?
    case FinishEnd(id) => Has(w.jobs, id, RUN) && w.jobs[id].icon.EndIcon?
    case FailIcon(id, _) => id in w.jobs && Going(w.jobs[id])
    case StopIcon(id) => id in w.jobs && Going(w.jobs[id])
    case AbortIcon(id) => Has(w.jobs, id, RUN)
    case Resync(id, _) => Linked(w.jobs, p, id) && w.jobs[id].status == RUNERR
    case NetChange(_, status) => status != NET_READY
  }

  function NetSet(nets: Nets, net: NetId, status: NetStatus): Nets { if net in nets then nets[net := status] else nets }

  // ja_set_runerr
  function Failed(p: Plan, w: World, id: JobId, iconStatus: int): Jobs
    requires id in w.jobs
  {
    Mark(if FailGoesOn(w.jobs[id], iconStatus) then Complete(w.jobs, p.flows, p.links, w.nets, id, NORMAL) else w.jobs,
         id, RUNERR)
  }

  const JOBNET_STATUS := 2  // the status a jobnet icon fails with

  function Next(p: Plan, w: World, s: Step): World
    requires Enabled(p, w, s)
  {
    match s
    case Launch(net, start) => World(Mark(w.jobs, start, READY), NetSet(w.nets, net, NET_RUN))
    case RunIcon(id) =>
      World(Mark(w.jobs, id, RUN), if Linked(w.jobs, p, id) then NetSet(w.nets, p.links[id], NET_READY) else w.nets)
    case Finish(id, kind) => w.(jobs := Complete(w.jobs, p.flows, p.links, w.nets, id, kind))
    case FinishEnd(id) => w.(jobs := Mark(w.jobs, id, END))
    case FailIcon(id, iconStatus) => w.(jobs := Failed(p, w, id, iconStatus))
    case StopIcon(id) => w.(jobs := Mark(w.jobs, id, ENDERR))
    case AbortIcon(id) => w.(jobs := Mark(w.jobs, id, ABORT))
    case Resync(id, how) =>
      w.(jobs := match how
                 case Revive => Mark(w.jobs, id, RUN)
                 case Finished => Complete(w.jobs, p.flows, p.links, w.nets, id, NORMAL)
                 case FailAgain => Failed(p, w, id, JOBNET_STATUS)
                 case Stop => Mark(w.jobs, id, ENDERR))
    case NetChange(net, status) => w.(nets := NetSet(w.nets, net, status))
  }

  // The steps that walk the flows of an icon, and how.
  predicate Walks(jobs: Jobs, s: Step)
  {
    match s
    case Finish(_, _) => true
    case FailIcon(id, iconStatus) => id in jobs && FailGoesOn(jobs[id], iconStatus)
    case Resync(id, how) => how.Finished? || (how.FailAgain? && id in jobs && FailGoesOn(jobs[id], JOBNET_STATUS))
    case _ => false
  }

  function WalkKind(s: Step): FlowKind { if s.Finish? then s.kind else NORMAL }

  // Steps the server takes with an icon itself, and those that only follow jobnets.
  predicate IconStep(s: Step) { !s.NetChange? && !s.Resync? }

  predicate Revives(s: Step) { s.Resync? && s.how.Revive? }

  function IconSteps(steps: seq<Step>): nat
  {
    if steps == [] then 0 else IconSteps(steps[..|steps|-1]) + if IconStep(steps[|steps|-1]) then 1 else 0
  }

  function Revivals(steps: seq<Step>): nat
  {
    if steps == [] then 0 else Revivals(steps[..|steps|-1]) + if Revives(steps[|steps|-1]) then 1 else 0
  }

  // How often an icon is started, and launched.
  function Starts(steps: seq<Step>, id: JobId): nat
  {
    if steps == [] then 0 else Starts(steps[..|steps|-1], id) + if steps[|steps|-1] == RunIcon(id) then 1 else 0
  }

  predicate Launches(s: Step, id: JobId) { s.Launch? && s.start == id }

  function LaunchCount(steps: seq<Step>, id: JobId): nat
  {
    if steps == [] then 0 else LaunchCount(steps[..|steps|-1], id) + if Launches(steps[|steps|-1], id) then 1 else 0
  }

  // A run: states[i+1] is the state after steps[i].
  ghost predicate IsRun(p: Plan, states: seq<World>, steps: seq<Step>)
  {
    && |states| == |steps| + 1
    && forall i :: 0 <= i < |steps| ==> Enabled(p, states[i], steps[i]) && states[i+1] == Next(p, states[i], steps[i])
  }

  lemma FailedShape(p: Plan, w: World, id: JobId, iconStatus: int)
    requires id in w.jobs
    ensures SameShape(w.jobs, Failed(p, w, id, iconStatus))
  {
    CompleteShape(w.jobs, p.flows, p.links, w.nets, id, NORMAL);
  }

  lemma NextShape(p: Plan, w: World, s: Step)
    requires Enabled(p, w, s)
    ensures SameShape(w.jobs, Next(p, w, s).jobs) && w.nets.Keys == Next(p, w, s).nets.Keys
  {
    match s
    case Finish(id, kind) => CompleteShape(w.jobs, p.flows, p.links, w.nets, id, kind);
    case FailIcon(id, iconStatus) => FailedShape(p, w, id, iconStatus);
    case Resync(id, _) =>
      CompleteShape(w.jobs, p.flows, p.links, w.nets, id, NORMAL);
      FailedShape(p, w, id, JOBNET_STATUS);
    case _ =>
  }
}
