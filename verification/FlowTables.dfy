// The icons of a running jobnet and what a flow does to the icon it enters
// (ja_flow_set_status in src/jalibs/jaflow.c), on the rows of ja_run_job_table.
module FlowTables {
  import opened Common

  type NetId = nat

  datatype Icon = StartIcon | EndIcon | IfIcon | JobIcon | JobnetIcon | IfEndIcon | LIcon | OtherIcon

  datatype Status = BEGIN | READY | RUN | END | RUNERR | ENDERR | ABORT

  datatype NetStatus = NET_BEGIN | NET_READY | NET_RUN | NET_END | NET_RUNERR | NET_ENDERR

  datatype FlowKind = NORMAL | TRUE | FALSE

  // Rows of ja_run_job_table and ja_run_flow_table.
  datatype Job = Job(net: NetId, icon: Icon, test: bool, cont: bool, bootCount: int, endCount: int, status: Status)
  datatype Flow = Flow(net: NetId, start: JobId, end: JobId, kind: FlowKind)

  type Jobs = map<JobId, Job>
  type Links = map<JobId, NetId>       // ja_run_icon_jobnet_table
  type Nets = map<NetId, NetStatus>    // ja_run_jobnet_table

  // What becomes of an icon when a flow reaches it: an error, nothing (test
  // mode), or a new status and end_count.
  datatype Verdict = Refuse | Absorb | Take(status: Status, endCount: int)

  function CountUp(icon: Icon, bootCount: int, endCount: int): Verdict
  {
    var n := endCount + 1;
    Take(if icon.IfEndIcon? || icon.LIcon? || bootCount <= n then READY else BEGIN, n)
  }

  function Judge(j: Job): Verdict
  {
    if j.status == END || j.status == RUNERR then
      if j.test then Absorb
      else if j.icon.EndIcon? then Refuse
      else CountUp(j.icon, j.bootCount, 0)
    else if j.status == BEGIN then CountUp(j.icon, j.bootCount, j.endCount)
    else if j.test then Absorb
    else Refuse
  }

  // update ja_run_job_table set status = ...: no row, no effect.
  function Mark(jobs: Jobs, id: JobId, status: Status): Jobs
  {
    if id in jobs then jobs[id := jobs[id].(status := status)] else jobs
  }

  lemma MarkTwice(jobs: Jobs, id: JobId, a: Status, b: Status)
    ensures Mark(Mark(jobs, id, a), id, b) == Mark(jobs, id, b)
  {
  }

  // Every icon of a jobnet back to the beginning.
  function ResetNet(jobs: Jobs, net: NetId): Jobs
  {
    map id | id in jobs :: if jobs[id].net == net then jobs[id].(status := BEGIN, endCount := 0) else jobs[id]
  }

  datatype Arrival = Refused | Absorbed | Arrived(jobs: Jobs)

  function Arrive(jobs: Jobs, links: Links, dst: JobId): Arrival
  {
    if dst !in jobs then Refused
    else
      match Judge(jobs[dst])
      case Refuse => Refused
      case Absorb => Absorbed
      case Take(status, n) =>
        if jobs[dst].icon.JobnetIcon? && status == READY then
          if dst !in links then Refused
          else
            var reset := ResetNet(jobs, links[dst]);
            Arrived(reset[dst := reset[dst].(status := status, endCount := n)])
        else Arrived(jobs[dst := jobs[dst].(status := status, endCount := n)])
  }

  // One flow from src; an error leaves ENDERR on src.
  function Settle(jobs: Jobs, src: JobId, a: Arrival): Jobs
  {
    match a
    case Refused => Mark(jobs, src, ENDERR)
    case Absorbed => jobs
    case Arrived(js) => js
  }

  function Deliver(jobs: Jobs, links: Links, src: JobId, dst: JobId): Jobs { Settle(jobs, src, Arrive(jobs, links, dst)) }

  function DeliverAll(jobs: Jobs, links: Links, src: JobId, dsts: seq<JobId>): Jobs
  {
    if dsts == [] then jobs
    else Deliver(DeliverAll(jobs, links, src, dsts[..|dsts|-1]), links, src, dsts[|dsts|-1])
  }

  // No flow takes an error branch.
  predicate Smooth(jobs: Jobs, links: Links, src: JobId, dsts: seq<JobId>)
  {
    dsts == [] ||
    (var front := dsts[..|dsts|-1];
     Smooth(jobs, links, src, front)
     && !Arrive(DeliverAll(jobs, links, src, front), links, dsts[|dsts|-1]).Refused?)
  }

  // select ... where start_inner_job_id = src
  function Outgoing(flows: seq<Flow>, src: JobId): seq<Flow>
  {
    if flows == [] then []
    else Outgoing(flows[..|flows|-1], src) + (if flows[|flows|-1].start == src then [flows[|flows|-1]] else [])
  }

  // The flows a completion of the given kind follows.
  predicate Follows(kind: FlowKind, f: Flow) { f.kind == kind || (kind == NORMAL && (f.kind == TRUE || f.kind == FALSE)) }

  function Targets(out: seq<Flow>, kind: FlowKind): seq<JobId>
  {
    if out == [] then []
    else Targets(out[..|out|-1], kind) + (if Follows(kind, out[|out|-1]) then [out[|out|-1].end] else [])
  }

  predicate Running(nets: Nets, net: NetId) { net in nets && (nets[net] == NET_RUN || nets[net] == NET_RUNERR) }

  const NO_STATUS := -99

  // Whether ja_set_runerr goes on to the successors.
  predicate FailGoesOn(j: Job, iconStatus: int) { j.cont && iconStatus != NO_STATUS && !j.icon.IfIcon? }

  // What ja_flow with a message flag does to the icons.
  function Complete(jobs: Jobs, flows: seq<Flow>, links: Links, nets: Nets, src: JobId, kind: FlowKind): Jobs
  {
    var out := Outgoing(flows, src);
    if out == [] then Mark(jobs, src, ENDERR)
    else if !Running(nets, out[0].net) then Mark(jobs, src, RUNERR)
    else Mark(DeliverAll(jobs, links, src, Targets(out, kind)), src, END)
  }

  // The completion takes no error branch.
  predicate CompletesSmoothly(jobs: Jobs, flows: seq<Flow>, links: Links, nets: Nets, src: JobId, kind: FlowKind)
  {
    var out := Outgoing(flows, src);
    out != [] && Running(nets, out[0].net) && Smooth(jobs, links, src, Targets(out, kind))
  }

  // ---- frames -----------------------------------------------------------------

  // The columns the engine never updates.
  predicate SameIcon(a: Job, b: Job)
  {
    a.net == b.net && a.icon == b.icon && a.test == b.test && a.cont == b.cont && a.bootCount == b.bootCount
  }

  ghost predicate SameShape(a: Jobs, b: Jobs)
  {
    a.Keys == b.Keys && forall id :: id in a ==> SameIcon(a[id], b[id])
  }

  lemma DeliverShape(jobs: Jobs, links: Links, src: JobId, dst: JobId)
    ensures SameShape(jobs, Deliver(jobs, links, src, dst))
  {
  }

  lemma DeliverAllShape(jobs: Jobs, links: Links, src: JobId, dsts: seq<JobId>)
    ensures SameShape(jobs, DeliverAll(jobs, links, src, dsts))
  {
    if dsts != [] {
      var front := dsts[..|dsts|-1];
      DeliverAllShape(jobs, links, src, front);
      DeliverShape(DeliverAll(jobs, links, src, front), links, src, dsts[|dsts|-1]);
    }
  }

  lemma CompleteShape(jobs: Jobs, flows: seq<Flow>, links: Links, nets: Nets, src: JobId, kind: FlowKind)
    ensures SameShape(jobs, Complete(jobs, flows, links, nets, src, kind))
  {
    DeliverAllShape(jobs, links, src, Targets(Outgoing(flows, src), kind));
  }

  // ---- where a walk leads ---------------------------------------------------------

  lemma OutgoingNext(flows: seq<Flow>, src: JobId)
    requires flows != []
    ensures var front, last := flows[..|flows|-1], flows[|flows|-1];
      Outgoing(flows, src) == if last.start == src then Outgoing(front, src) + [last] else Outgoing(front, src)
  {
  }

  lemma TargetsAppend(out: seq<Flow>, f: Flow, kind: FlowKind)
    ensures Targets(out + [f], kind) == Targets(out, kind) + if Follows(kind, f) then [f.end] else []
  {
    assert (out + [f])[..|out|] == out;
  }

  lemma {:induction false} TargetOf(flows: seq<Flow>, src: JobId, x: JobId)
    requires x in Targets(Outgoing(flows, src), NORMAL)
    ensures exists f :: f in flows && f.start == src && f.end == x
  {
    var front, last := flows[..|flows|-1], flows[|flows|-1];
    OutgoingNext(flows, src);
    if last.start == src {
      TargetsAppend(Outgoing(front, src), last, NORMAL);
      if last.end == x {
        assert last in flows;
        return;
      }
    }
    TargetOf(front, src, x);
  }

  lemma {:induction false} TargetsAll(out: seq<Flow>, kind: FlowKind, d: JobId)
    requires d in Targets(out, kind)
    ensures d in Targets(out, NORMAL)
  {
    if Follows(kind, out[|out|-1]) && out[|out|-1].end == d {
      assert Targets(out, NORMAL)[|Targets(out, NORMAL)|-1] == d;
    } else {
      TargetsAll(out[..|out|-1], kind, d);
    }
  }
}
