// When a jobnet of TokenFlow ends by the count of JobnetStatus, and what that
// means for the icon that stands for it in another jobnet: jajobnet_run_sync (in
// src/jobarg_server/jajobnet/jajobnetrun.c) completes it only then.
module JobnetEnds {
  import opened Common
  import opened FlowTables
  import opened Runs
  import opened TokenFlow
  import opened TokenProgress
  import opened JobnetStatus

  // ---- when END is given ------------------------------------------------------------

  // A failed or aborted icon with the continue flag that has not released its
  // successors: the count takes it for ended.
  predicate Stuck(jobs: Jobs, id: JobId, done: set<JobId>)
  {
    id in jobs && jobs[id].cont && (jobs[id].status == ABORT || (jobs[id].status == RUNERR && id !in done))
  }

  // END is given exactly when one END icon has ended and every icon is completed,
  // or has not begun, or is stuck.
  lemma EndExact(p: Plan, jobs: Jobs, net: NetId, done: set<JobId>)
    requires Tokens(p, jobs, net, done)
    ensures TestFlag(jobs, net, false)
    ensures Judged(jobs, net, false) == NET_END <==>
      && One(jobs, net, IsStart) && One(jobs, net, EndIconEnded)
      && forall x :: In(jobs, x, net) ==> x in done || jobs[x].status == BEGIN || Stuck(jobs, x, done)
  {
    forall x | In(jobs, x, net)
      ensures EndedInError(jobs[x]) || IsReady(jobs[x]) || IsRunning(jobs[x]) || HasFailed(jobs[x])
         <==> !(x in done || jobs[x].status == BEGIN || Stuck(jobs, x, done))
    {
      assert Counted(p, x, jobs[x], done, 0);
    }
    if Any(jobs, net, EndIconEnded) {
      var x :| In(jobs, x, net) && EndIconEnded(jobs[x]);
      assert IsEnd(jobs[x]);
    }
  }

  lemma HasPredecessor(p: Plan, jobs: Jobs, net: NetId, id: JobId) returns (f: Flow)
    requires Regular(p, jobs, net) && In(jobs, id, net) && !jobs[id].icon.StartIcon?
    ensures f in p.flows && f.end == id && In(jobs, f.start, net)
  {
    CountBound(p.flows, id, {});
    CountNone(p.flows, id);
    f :| f in p.flows && f.end == id;
  }

  // Behind a completed icon there is a completed start icon.
  lemma {:induction false} StartBehind(p: Plan, jobs: Jobs, net: NetId, done: set<JobId>, rank: JobId -> nat, id: JobId)
    returns (start: JobId)
    requires Tokens(p, jobs, net, done) && Acyclic(p, jobs, net, rank) && In(jobs, id, net) && id in done
    ensures In(jobs, start, net) && jobs[start].icon.StartIcon? && start in done
    decreases rank(id)
  {
    if jobs[id].icon.StartIcon? {
      start := id;
    } else {
      var f := HasPredecessor(p, jobs, net, id);
      StartsAfterPredecessors(p, jobs, net, done, id);
      start := StartBehind(p, jobs, net, done, rank, f.start);
    }
  }

  // In an acyclic jobnet where no icon is stuck: exactly when one END icon has
  // ended and all icons are completed.
  lemma EndMeansCompleted(p: Plan, jobs: Jobs, net: NetId, done: set<JobId>, rank: JobId -> nat)
    requires Tokens(p, jobs, net, done) && Acyclic(p, jobs, net, rank) && forall x :: In(jobs, x, net) ==> !Stuck(jobs, x, done)
    ensures Judged(jobs, net, false) == NET_END <==>
      One(jobs, net, IsStart) && One(jobs, net, EndIconEnded) && forall x :: In(jobs, x, net) ==> x in done
  {
    EndExact(p, jobs, net, done);
    if Judged(jobs, net, false) == NET_END {
      var end :| In(jobs, end, net) && EndIconEnded(jobs[end]);
      assert Counted(p, end, jobs[end], done, 0);
      var start := StartBehind(p, jobs, net, done, rank, end);
      assert Counted(p, start, jobs[start], done, 0) && IsStart(jobs[start]);
      forall x | In(jobs, x, net) ensures x in done {
        if x !in done {
          var next := Progress(p, jobs, net, done, rank, x);
        }
      }
    }
  }

  predicate Stops(j: Job) { !j.cont }

  // Without continue flags: exactly when there is one END icon and all icons are END.
  // So a jobnet with a second END icon never ends that way.
  lemma EndMeansAllEnd(p: Plan, jobs: Jobs, net: NetId, done: set<JobId>, rank: JobId -> nat)
    requires Tokens(p, jobs, net, done) && Acyclic(p, jobs, net, rank) && All(jobs, net, Stops)
    ensures Judged(jobs, net, false) == NET_END <==>
      One(jobs, net, IsStart) && One(jobs, net, IsEnd) && forall x :: In(jobs, x, net) ==> jobs[x].status == END
  {
    EndMeansCompleted(p, jobs, net, done, rank);
    forall x | In(jobs, x, net) ensures x in done <==> jobs[x].status == END {
      assert Counted(p, x, jobs[x], done, 0) && Stops(jobs[x]);
    }
    if forall x :: In(jobs, x, net) ==> jobs[x].status == END {
      assert One(jobs, net, EndIconEnded) <==> One(jobs, net, IsEnd) by {
        assert forall x :: In(jobs, x, net) ==> (EndIconEnded(jobs[x]) <==> IsEnd(jobs[x]));
      }
    }
  }

  // A launched acyclic jobnet that stands still without END or error is shown as
  // RUNERR, unless every failed icon has the continue flag; one has failed.
  lemma StalledIsRunErr(p: Plan, states: seq<World>, net: NetId, steps: seq<Step>, i: nat, start: JobId, rank: JobId -> nat,
                        end: JobId, status: NetStatus)
    returns (failed: JobId)
    requires Started(p, states, net, steps) && Launched(states, net, steps, i, start)
    requires Acyclic(p, states[|steps|].jobs, net, rank)
    requires var jobs := states[|steps|].jobs;
      && Reflects(jobs, net, false, status) && !InError(jobs, net, false)
      && In(jobs, end, net) && jobs[end].icon == EndIcon && (forall x :: !Reached(jobs, net, x))
      && forall x :: In(jobs, x, net) ==> jobs[x].status != READY && jobs[x].status != RUN
    ensures var jobs := states[|steps|].jobs;
      && In(jobs, failed, net) && (jobs[failed].status == RUNERR || jobs[failed].status == ABORT)
      && (!jobs[failed].cont ==> status == NET_RUNERR)
      && (status == NET_RUN || status == NET_RUNERR)
      && (status == NET_RUN <==> forall x :: In(jobs, x, net) && (jobs[x].status == RUNERR || jobs[x].status == ABORT) ==> jobs[x].cont)
  {
    var jobs := states[|steps|].jobs;
    assert !Reached(jobs, net, end);
    failed := LaunchedProgress(p, states, net, steps, i, start, rank, end);
    assert In(jobs, failed, net);
    forall x | In(jobs, x, net) ensures FailedFor(jobs, net, x) <==> (jobs[x].status == RUNERR || jobs[x].status == ABORT) && !jobs[x].cont {
    }
  }

  // An icon being aborted does not hold up END: icon 2, with the continue flag,
  // is told to stop, and icon 3 ends the jobnet meanwhile.
  function AbortedPlan(): Plan { Plan([Flow(5, 1, 2, NORMAL), Flow(5, 1, 3, NORMAL)], map[]) }

  function AbortedJobs(): Jobs
  {
    map[1 := Job(5, StartIcon, false, false, 0, 0, END), 2 := Job(5, JobIcon, false, true, 1, 1, ABORT),
        3 := Job(5, EndIcon, false, false, 1, 1, END)]
  }

  lemma AbortedCounts(x: JobId)
    requires 1 <= x <= 3
    ensures CountIn(AbortedPlan().flows, x) == CountFrom(AbortedPlan().flows, x, {1, 3}) == if x == 1 then 0 else 1
  {
    var flows := AbortedPlan().flows;
    assert flows[..1] == [Flow(5, 1, 2, NORMAL)] && flows[..1][..0] == [];
  }

  lemma AbortedTokens()
    ensures Tokens(AbortedPlan(), AbortedJobs(), 5, {1, 3})
  {
    forall x: JobId | In(AbortedJobs(), x, 5)
      ensures RegularIcon(AbortedPlan(), 5, x, AbortedJobs()[x]) && Counted(AbortedPlan(), x, AbortedJobs()[x], {1, 3}, 0)
    {
      AbortedCounts(x);
    }
    assert Regular(AbortedPlan(), AbortedJobs(), 5);
  }

  lemma EndsWhileAborting()
    ensures Tokens(AbortedPlan(), AbortedJobs(), 5, {1, 3}) && Stuck(AbortedJobs(), 2, {1, 3})
    ensures Judged(AbortedJobs(), 5, false) == NET_END
  {
    var jobs := AbortedJobs();
    AbortedTokens();
    assert In(jobs, 1, 5) && IsStart(jobs[1]) && In(jobs, 3, 5) && EndIconEnded(jobs[3]);
    EndExact(AbortedPlan(), jobs, 5, {1, 3});
  }

  // ---- the icon of the jobnet -----------------------------------------------------------

  // jajobnet_run_sync: the jobnet gets the status and its icon follows.
  function Synced(p: Plan, w: World, net: NetId, icon: JobId, status: NetStatus): World
    requires icon in w.jobs
  {
    var nets := NetSet(w.nets, net, status);
    World(match status
          case NET_END => Complete(w.jobs, p.flows, p.links, nets, icon, NORMAL)
          case NET_RUNERR => Failed(p, World(w.jobs, nets), icon, JOBNET_STATUS)
          case NET_ENDERR => Mark(w.jobs, icon, ENDERR)
          case _ => Mark(w.jobs, icon, RUN),
          nets)
  }

  // The step that follows for an icon that is RUN or RUNERR.
  function FollowStep(icon: JobId, now: Status, status: NetStatus): Step
  {
    match status
    case NET_END => if now == RUN then Finish(icon, NORMAL) else Resync(icon, Finished)
    case NET_RUNERR => if now == RUN then FailIcon(icon, JOBNET_STATUS) else Resync(icon, FailAgain)
    case NET_ENDERR => if now == RUN then StopIcon(icon) else Resync(icon, Stop)
    case _ => Resync(icon, Revive)
  }

  // One such transaction is a change of the jobnet and one step of its icon, or no
  // step if that is RUN and stays so.
  lemma SyncIsSteps(p: Plan, w: World, net: NetId, icon: JobId, status: NetStatus)
    requires Linked(w.jobs, p, icon) && (w.jobs[icon].status == RUN || w.jobs[icon].status == RUNERR)
    requires status == NET_RUN || status == NET_END || status == NET_RUNERR || status == NET_ENDERR
    ensures Enabled(p, w, NetChange(net, status))
    ensures var mid, s := Next(p, w, NetChange(net, status)), FollowStep(icon, w.jobs[icon].status, status);
      Synced(p, w, net, icon, status) ==
        if w.jobs[icon].status == RUN && status == NET_RUN then mid
        else if Enabled(p, mid, s) then Next(p, mid, s) else w
    ensures (w.jobs[icon].status == RUN && status == NET_RUN)
         || Enabled(p, Next(p, w, NetChange(net, status)), FollowStep(icon, w.jobs[icon].status, status))
  {
    if w.jobs[icon].status == RUN && status == NET_RUN {
      assert Mark(w.jobs, icon, RUN) == w.jobs;
    }
  }

  // ---- over runs: first the inner jobnet, then its icon -----------------------------------

  // A started jobnet icon is completed by jajobnet_run_sync only, and none is skipped.
  predicate Completes(w: World, s: Step, icon: JobId)
  {
    match s
    case Finish(id, _) => id == icon
    case Resync(id, how) => id == icon && how.Finished?
    case _ => false
  }

  ghost predicate Heeds(states: seq<World>, steps: seq<Step>, icon: JobId, inner: NetId)
    requires |states| > |steps|
  {
    forall i :: 0 <= i < |steps| && Completes(states[i], steps[i], icon) ==> Judged(states[i].jobs, inner, false) == NET_END
  }

  // The jobnet is over: an END icon has ended and, if the jobnet is acyclic and none
  // of its icons goes on after an error, all of its icons have.
  ghost predicate Over(p: Plan, jobs: Jobs, net: NetId, rank: JobId -> nat)
  {
    && Any(jobs, net, EndIconEnded)
    && (Acyclic(p, jobs, net, rank) && All(jobs, net, Stops) ==> forall x :: In(jobs, x, net) ==> jobs[x].status == END)
  }

  lemma JudgedOver(p: Plan, jobs: Jobs, net: NetId, done: set<JobId>, rank: JobId -> nat)
    requires Tokens(p, jobs, net, done) && Judged(jobs, net, false) == NET_END
    ensures Over(p, jobs, net, rank)
  {
    if Acyclic(p, jobs, net, rank) && All(jobs, net, Stops) {
      EndMeansAllEnd(p, jobs, net, done, rank);
    }
  }

  // Icons that ended stay so while their jobnet goes on.
  ghost predicate EndsStay(a: Jobs, b: Jobs, net: NetId)
  {
    SameShape(a, b) && forall x :: In(a, x, net) && a[x].status == END ==> b[x].status == END
  }

  lemma OverStays(p: Plan, a: Jobs, b: Jobs, net: NetId, rank: JobId -> nat)
    requires Over(p, a, net, rank) && EndsStay(a, b, net)
    ensures Over(p, b, net, rank)
  {
    var x :| In(a, x, net) && EndIconEnded(a[x]);
    assert In(b, x, net) && EndIconEnded(b[x]);
    if Acyclic(p, b, net, rank) && All(b, net, Stops) {
      forall y | In(a, y, net) ensures Stops(a[y]) {
        assert In(b, y, net) && Stops(b[y]);
      }
      assert Acyclic(p, a, net, rank);
      forall y | In(b, y, net) ensures b[y].status == END {
        assert In(a, y, net);
      }
    }
  }

  // A step of the jobnet's own.
  lemma OwnStays(p: Plan, w: World, net: NetId, done: set<JobId>, s: Step)
    requires Tokens(p, w.jobs, net, done) && EndsAtEnd(p, w.jobs, net)
    requires Enabled(p, w, s) && Orderly(w, net, done, s) && Owns(w, net, s)
    ensures EndsStay(w.jobs, Next(p, w, s).jobs, net)
  {
    var js := Next(p, w, s).jobs;
    NextShape(p, w, s);
    OwnStep(p, w, net, done, s, Subject(s));
    forall x | In(w.jobs, x, net) && w.jobs[x].status == END ensures js[x].status == END {
      assert Counted(p, x, w.jobs[x], done, 0);
      assert In(js, x, net) && Counted(p, x, js[x], done + Completed(w, net, s), 0);
    }
  }

  // ---- steps of other jobnets, and the one link ----------------------------------------------

  // Only this icon links the jobnet.
  ghost predicate OnlyLink(p: Plan, icon: JobId, inner: NetId)
  {
    icon in p.links && p.links[icon] == inner && forall x :: x in p.links && p.links[x] == inner ==> x == icon
  }

  ghost predicate Kept(a: Jobs, b: Jobs, net: NetId) { SameShape(a, b) && forall x :: In(a, x, net) ==> b[x] == a[x] }

  predicate Waits(j: Job) { j.status == READY || j.status == BEGIN }

  predicate Unended(a: Jobs, b: Jobs, icon: JobId)
  {
    icon in a && icon in b && (b[icon].status == a[icon].status || Waits(b[icon]))
  }

  // A step of another icon does not end this one.
  lemma {:induction false} WalkLeaves(p: Plan, jobs: Jobs, src: JobId, dsts: seq<JobId>, icon: JobId)
    requires icon in jobs && src != icon
    ensures Unended(jobs, DeliverAll(jobs, p.links, src, dsts), icon)
  {
    if dsts != [] {
      WalkLeaves(p, jobs, src, dsts[..|dsts|-1], icon);
    }
  }

  lemma CompleteLeaves(p: Plan, w: World, src: JobId, kind: FlowKind, icon: JobId)
    requires icon in w.jobs && src != icon
    ensures Unended(w.jobs, Complete(w.jobs, p.flows, p.links, w.nets, src, kind), icon)
  {
    WalkLeaves(p, w.jobs, src, Targets(Outgoing(p.flows, src), kind), icon);
  }

  lemma FailedLeaves(p: Plan, w: World, src: JobId, iconStatus: int, icon: JobId)
    requires icon in w.jobs && src in w.jobs && src != icon
    ensures Unended(w.jobs, Failed(p, w, src, iconStatus), icon)
  {
    CompleteLeaves(p, w, src, NORMAL, icon);
  }

  lemma StepLeaves(p: Plan, w: World, s: Step, icon: JobId)
    requires Enabled(p, w, s) && icon in w.jobs && (s.NetChange? || Subject(s) != icon)
    ensures Unended(w.jobs, Next(p, w, s).jobs, icon)
  {
    match s {
      case Finish(id, kind) => CompleteLeaves(p, w, id, kind, icon);
      case FailIcon(id, iconStatus) => FailedLeaves(p, w, id, iconStatus, icon);
      case Resync(id, _) =>
        CompleteLeaves(p, w, id, NORMAL, icon);
        FailedLeaves(p, w, id, JOBNET_STATUS, icon);
      case _ =>
    }
  }

  // A walk from another icon than this one, outside the inner jobnet: that is reset
  // only with the icon becoming READY, and the icon does not end.
  ghost predicate Distant(a: Jobs, b: Jobs, icon: JobId, inner: NetId)
  {
    && SameShape(a, b) && Unended(a, b, icon)
    && (Kept(a, b, inner) || Waits(b[icon]))
  }

  lemma DeliverDistant(p: Plan, a: Jobs, b: Jobs, src: JobId, dst: JobId, icon: JobId, inner: NetId)
    requires Distant(a, b, icon, inner) && OnlyLink(p, icon, inner)
    requires src != icon && !In(a, src, inner) && !In(a, dst, inner) && !In(a, icon, inner)
    ensures Distant(a, Deliver(b, p.links, src, dst), icon, inner)
  {
    DeliverShape(b, p.links, src, dst);
  }

  lemma {:induction false} WalkDistant(p: Plan, jobs: Jobs, src: JobId, dsts: seq<JobId>, icon: JobId, inner: NetId)
    requires OnlyLink(p, icon, inner) && icon in jobs && src != icon && !In(jobs, src, inner) && !In(jobs, icon, inner)
    requires forall d :: d in dsts ==> !In(jobs, d, inner)
    ensures Distant(jobs, DeliverAll(jobs, p.links, src, dsts), icon, inner)
  {
    if dsts != [] {
      var front, dst := dsts[..|dsts|-1], dsts[|dsts|-1];
      assert dst in dsts;
      WalkDistant(p, jobs, src, front, icon, inner);
      DeliverDistant(p, jobs, DeliverAll(jobs, p.links, src, front), src, dst, icon, inner);
    }
  }

  // A walk that does not enter the icon leaves the inner jobnet alone.
  lemma {:induction false} WalkKeeps(p: Plan, jobs: Jobs, src: JobId, dsts: seq<JobId>, icon: JobId, inner: NetId)
    requires OnlyLink(p, icon, inner) && !In(jobs, src, inner) && icon !in dsts
    requires forall d :: d in dsts ==> !In(jobs, d, inner)
    ensures Kept(jobs, DeliverAll(jobs, p.links, src, dsts), inner)
  {
    if dsts != [] {
      var front, dst := dsts[..|dsts|-1], dsts[|dsts|-1];
      assert dst in dsts;
      WalkKeeps(p, jobs, src, front, icon, inner);
      DeliverShape(DeliverAll(jobs, p.links, src, front), p.links, src, dst);
    }
  }

  lemma OutsideTargets(p: Plan, jobs: Jobs, net: NetId, src: JobId, kind: FlowKind)
    requires Regular(p, jobs, net) && !In(jobs, src, net)
    ensures forall d :: d in Targets(Outgoing(p.flows, src), kind) ==> !In(jobs, d, net)
  {
    forall d | d in Targets(Outgoing(p.flows, src), kind) ensures !In(jobs, d, net) {
      TargetsAll(Outgoing(p.flows, src), kind, d);
      TargetOf(p.flows, src, d);
    }
  }

  lemma CompleteDistant(p: Plan, w: World, src: JobId, kind: FlowKind, icon: JobId, inner: NetId)
    requires Regular(p, w.jobs, inner) && OnlyLink(p, icon, inner) && icon in w.jobs
    requires src != icon && !In(w.jobs, src, inner) && !In(w.jobs, icon, inner)
    ensures Distant(w.jobs, Complete(w.jobs, p.flows, p.links, w.nets, src, kind), icon, inner)
  {
    var dsts := Targets(Outgoing(p.flows, src), kind);
    CompleteShape(w.jobs, p.flows, p.links, w.nets, src, kind);
    OutsideTargets(p, w.jobs, inner, src, kind);
    WalkDistant(p, w.jobs, src, dsts, icon, inner);
  }

  // Any step that is neither the icon's nor the inner jobnet's.
  lemma StepDistant(p: Plan, w: World, s: Step, icon: JobId, inner: NetId)
    requires Enabled(p, w, s) && Regular(p, w.jobs, inner) && OnlyLink(p, icon, inner) && icon in w.jobs
    requires !In(w.jobs, icon, inner) && !Owns(w, inner, s) && (s.NetChange? || Subject(s) != icon)
    ensures Distant(w.jobs, Next(p, w, s).jobs, icon, inner)
  {
    NextShape(p, w, s);
    if Walks(w.jobs, s) {
      CompleteDistant(p, w, s.id, WalkKind(s), icon, inner);
    }
  }

  // Completing the icon leaves the inner jobnet alone.
  lemma IconKeeps(p: Plan, w: World, outer: NetId, done: set<JobId>, icon: JobId, inner: NetId)
    requires Tokens(p, w.jobs, outer, done) && In(w.jobs, icon, outer) && Open(icon, w.jobs[icon], done)
    requires Regular(p, w.jobs, inner) && OnlyLink(p, icon, inner) && !In(w.jobs, icon, inner)
    ensures Kept(w.jobs, Complete(w.jobs, p.flows, p.links, w.nets, icon, NORMAL), inner)
  {
    var dsts := Targets(Outgoing(p.flows, icon), NORMAL);
    CompleteShape(w.jobs, p.flows, p.links, w.nets, icon, NORMAL);
    Room(p, w.jobs, outer, done, icon);
    OutsideTargets(p, w.jobs, inner, icon, NORMAL);
    WalkKeeps(p, w.jobs, icon, dsts, icon, inner);
  }

  // The icon's own step: it ends only by being completed.
  lemma OwnIcon(p: Plan, w: World, outer: NetId, done: set<JobId>, s: Step, icon: JobId, inner: NetId)
    requires Tokens(p, w.jobs, outer, done) && EndsAtEnd(p, w.jobs, outer) && Enabled(p, w, s) && Orderly(w, outer, done, s)
    requires In(w.jobs, icon, outer) && w.jobs[icon].icon.JobnetIcon? && !s.NetChange? && Subject(s) == icon
    requires Regular(p, w.jobs, inner) && OnlyLink(p, icon, inner) && !In(w.jobs, icon, inner)
    requires Has(Next(p, w, s).jobs, icon, END)
    ensures Completes(w, s, icon) && Kept(w.jobs, Next(p, w, s).jobs, inner)
  {
    assert Counted(p, icon, w.jobs[icon], done, 0);
    match s {
      case Finish(_, _) => IconKeeps(p, w, outer, done, icon, inner);
      case Resync(_, how) =>
        if how.Finished? {
          IconKeeps(p, w, outer, done, icon, inner);
        }
      case _ =>
    }
  }

  // ---- the run ---------------------------------------------------------------------------------

  ghost predicate InnerFirst(p: Plan, jobs: Jobs, icon: JobId, inner: NetId, rank: JobId -> nat)
  {
    icon in jobs && (jobs[icon].status == END ==> Over(p, jobs, inner, rank))
  }

  lemma KeptStays(a: Jobs, b: Jobs, net: NetId)
    requires Kept(a, b, net)
    ensures EndsStay(a, b, net)
  {
  }

  lemma InnerStep(p: Plan, w: World, outer: NetId, a: set<JobId>, inner: NetId, b: set<JobId>, s: Step, icon: JobId, rank: JobId -> nat)
    requires Tokens(p, w.jobs, outer, a) && EndsAtEnd(p, w.jobs, outer) && Orderly(w, outer, a, s)
    requires Tokens(p, w.jobs, inner, b) && EndsAtEnd(p, w.jobs, inner) && Orderly(w, inner, b, s)
    requires Enabled(p, w, s) && OnlyLink(p, icon, inner) && In(w.jobs, icon, outer) && w.jobs[icon].icon.JobnetIcon?
    requires Completes(w, s, icon) ==> Judged(w.jobs, inner, false) == NET_END
    requires outer != inner && InnerFirst(p, w.jobs, icon, inner, rank)
    ensures InnerFirst(p, Next(p, w, s).jobs, icon, inner, rank)
  {
    var js := Next(p, w, s).jobs;
    NextShape(p, w, s);
    if js[icon].status == END {
      if Owns(w, inner, s) {
        assert In(w.jobs, icon, outer);
        OwnStays(p, w, inner, b, s);
        StepLeaves(p, w, s, icon);
        OverStays(p, w.jobs, js, inner, rank);
      } else if !s.NetChange? && Subject(s) == icon {
        OwnIcon(p, w, outer, a, s, icon, inner);
        JudgedOver(p, w.jobs, inner, b, rank);
        KeptStays(w.jobs, js, inner);
        OverStays(p, w.jobs, js, inner, rank);
      } else {
        StepDistant(p, w, s, icon, inner);
        KeptStays(w.jobs, js, inner);
        OverStays(p, w.jobs, js, inner, rank);
      }
    }
  }

  lemma NthInner(p: Plan, states: seq<World>, outer: NetId, inner: NetId, steps: seq<Step>, icon: JobId, rank: JobId -> nat, n: nat)
    requires Started(p, states, outer, steps) && Started(p, states, inner, steps) && n < |steps|
    requires OnlyLink(p, icon, inner) && In(states[n].jobs, icon, outer) && states[n].jobs[icon].icon.JobnetIcon?
    requires Completes(states[n], steps[n], icon) ==> Judged(states[n].jobs, inner, false) == NET_END
    requires InnerFirst(p, states[n].jobs, icon, inner, rank)
    ensures InnerFirst(p, states[n+1].jobs, icon, inner, rank)
  {
    var w := states[n];
    RunTokens(p, states, outer, steps, n);
    RunTokens(p, states, inner, steps, n);
    assert RegularIcon(p, outer, icon, w.jobs[icon]);
    InnerStep(p, w, outer, DoneAt(p, states, outer, steps, n), inner, DoneAt(p, states, inner, steps, n), steps[n], icon, rank);
  }

  // In every state of a run whose jobnets are loaded or reset at its start: while
  // the icon is END, the inner jobnet is over.
  lemma {:induction false} InnerEndsFirst(p: Plan, states: seq<World>, outer: NetId, inner: NetId, steps: seq<Step>,
                                          icon: JobId, rank: JobId -> nat, n: nat)
    requires Started(p, states, outer, steps) && Started(p, states, inner, steps) && n <= |steps|
    requires OnlyLink(p, icon, inner) && In(states[0].jobs, icon, outer) && states[0].jobs[icon].icon.JobnetIcon?
    requires Heeds(states, steps, icon, inner)
    ensures In(states[n].jobs, icon, outer) && states[n].jobs[icon].icon.JobnetIcon?
    ensures states[n].jobs[icon].status == END ==> Over(p, states[n].jobs, inner, rank)
  {
    if n == 0 {
      assert states[0].jobs[icon].status == BEGIN;
    } else {
      InnerEndsFirst(p, states, outer, inner, steps, icon, rank, n - 1);
      NextShape(p, states[n-1], steps[n-1]);
      NthInner(p, states, outer, inner, steps, icon, rank, n - 1);
    }
  }
}
