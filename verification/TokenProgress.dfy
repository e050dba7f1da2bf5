// How a launched jobnet gets on between two resets, under the invariant of
// TokenFlow: it never stands still without a cause, and it takes a bounded
// number of steps.
module TokenProgress {
  import opened Common
  import opened FlowTables
  import opened Runs
  import opened TokenFlow

  // Flows lead to icons of higher rank.
  ghost predicate Acyclic(p: Plan, jobs: Jobs, net: NetId, rank: JobId -> nat)
  {
    forall f :: f in p.flows && In(jobs, f.start, net) ==> rank(f.start) < rank(f.end)
  }

  // A launched acyclic jobnet with an unfinished icon has one that is READY or
  // RUN (or being aborted), or one that failed and stopped.
  lemma {:induction false} Progress(p: Plan, jobs: Jobs, net: NetId, done: set<JobId>, rank: JobId -> nat, id: JobId)
    returns (next: JobId)
    requires Tokens(p, jobs, net, done) && Acyclic(p, jobs, net, rank)
    requires forall x :: In(jobs, x, net) && jobs[x].icon.StartIcon? ==> jobs[x].status != BEGIN
    requires In(jobs, id, net) && id !in done
    ensures In(jobs, next, net) && next !in done
    ensures Going(jobs[next]) || jobs[next].status == RUNERR || jobs[next].status == ENDERR
    decreases rank(id)
  {
    if jobs[id].status != BEGIN {
      next := id;
    } else {
      CountBound(p.flows, id, done);
      var f :| f in p.flows && f.end == id && f.start !in done;
      next := Progress(p, jobs, net, done, rank, f.start);
    }
  }

  // Step i launches the jobnet at its only start icon, and no reset follows.
  ghost predicate Launched(states: seq<World>, net: NetId, steps: seq<Step>, i: nat, start: JobId)
    requires |states| == |steps| + 1
  {
    && i < |steps| && steps[i] == Launch(net, start) && NoReset(states, net, i, |steps|)
    && forall x :: In(states[i].jobs, x, net) && states[i].jobs[x].icon.StartIcon? ==> x == start
  }

  // After a launch the start icon has left BEGIN for good.
  lemma StartHasBegun(p: Plan, states: seq<World>, net: NetId, steps: seq<Step>, i: nat, start: JobId)
    requires Started(p, states, net, steps) && Launched(states, net, steps, i, start)
    ensures forall x :: In(states[|steps|].jobs, x, net) && states[|steps|].jobs[x].icon.StartIcon? ==>
              states[|steps|].jobs[x].status != BEGIN
  {
    var last := states[|steps|].jobs;
    NextShape(p, states[i], steps[i]);
    StatusesAdvance(p, states, net, steps, i + 1, |steps|);
    assert In(states[i+1].jobs, start, net) && states[i+1].jobs[start].status == READY;
    forall x | In(last, x, net) && last[x].icon.StartIcon? ensures last[x].status != BEGIN {
      assert In(states[i+1].jobs, x, net) && In(states[i].jobs, x, net);
    }
  }

  // In every state of a run after the launch of an acyclic jobnet: if an icon has
  // not ended, one is READY or RUN or being aborted, or has failed.
  lemma LaunchedProgress(p: Plan, states: seq<World>, net: NetId, steps: seq<Step>, i: nat, start: JobId,
                         rank: JobId -> nat, id: JobId)
    returns (next: JobId)
    requires Started(p, states, net, steps) && Launched(states, net, steps, i, start)
    requires Acyclic(p, states[|steps|].jobs, net, rank)
    requires In(states[|steps|].jobs, id, net) && states[|steps|].jobs[id].status != END
    ensures In(states[|steps|].jobs, next, net)
    ensures var j := states[|steps|].jobs[next]; Going(j) || j.status == RUNERR || j.status == ENDERR
  {
    var done := DoneAt(p, states, net, steps, |steps|);
    RunTokens(p, states, net, steps, |steps|);
    StartHasBegun(p, states, net, steps, i, start);
    if id in done {
      assert Counted(p, id, states[|steps|].jobs[id], done, 0);
      next := id;
    } else {
      next := Progress(p, states[|steps|].jobs, net, done, rank, id);
    }
  }

  predicate Idle(j: Job) { !Going(j) && j.status != RUNERR && j.status != ENDERR }

  // So a launched jobnet with nothing to do and no failure has ended altogether.
  lemma IdleMeansEnded(p: Plan, states: seq<World>, net: NetId, steps: seq<Step>, i: nat, start: JobId, rank: JobId -> nat)
    requires Started(p, states, net, steps) && Launched(states, net, steps, i, start)
    requires Acyclic(p, states[|steps|].jobs, net, rank)
    requires forall x :: In(states[|steps|].jobs, x, net) ==> Idle(states[|steps|].jobs[x])
    ensures forall x :: In(states[|steps|].jobs, x, net) ==> states[|steps|].jobs[x].status == END
  {
    var last := states[|steps|].jobs;
    forall x | In(last, x, net) ensures last[x].status == END {
      if last[x].status != END {
        var next := LaunchedProgress(p, states, net, steps, i, start, rank, x);
      }
    }
  }

  // ---- a bound on the steps -------------------------------------------------------

  // What the icons below n still have before them, and how many there are.
  function NetLeft(jobs: Jobs, net: NetId, n: nat): nat
  {
    if n == 0 then 0 else NetLeft(jobs, net, n - 1) + if In(jobs, n - 1, net) then Left(jobs[n-1].status) else 0
  }

  function NetSize(jobs: Jobs, net: NetId, n: nat): nat
  {
    if n == 0 then 0 else NetSize(jobs, net, n - 1) + if In(jobs, n - 1, net) then 1 else 0
  }

  lemma {:induction false} LeftBound(jobs: Jobs, net: NetId, n: nat)
    ensures NetLeft(jobs, net, n) <= 5 * NetSize(jobs, net, n)
  {
    if n > 0 {
      LeftBound(jobs, net, n - 1);
    }
  }

  lemma {:induction false} LeftAdvances(a: Jobs, b: Jobs, net: NetId, n: nat)
    requires Advanced(a, b, net)
    ensures NetLeft(b, net, n) <= NetLeft(a, net, n)
  {
    if n > 0 {
      LeftAdvances(a, b, net, n - 1);
      assert In(a, n - 1, net) <==> In(b, n - 1, net);
    }
  }

  lemma {:induction false} LeftLess(a: Jobs, b: Jobs, net: NetId, n: nat, id: JobId)
    requires Advanced(a, b, net) && In(a, id, net) && id < n && Left(b[id].status) < Left(a[id].status)
    ensures NetLeft(b, net, n) < NetLeft(a, net, n)
  {
    assert In(a, n - 1, net) <==> In(b, n - 1, net);
    if id == n - 1 {
      LeftAdvances(a, b, net, n - 1);
    } else {
      LeftLess(a, b, net, n - 1, id);
    }
  }

  lemma {:induction false} LeftRevived(jobs: Jobs, net: NetId, n: nat, id: JobId)
    requires Has(jobs, id, RUNERR)
    ensures NetLeft(Mark(jobs, id, RUN), net, n) <= NetLeft(jobs, net, n) + if id < n then 2 else 0
  {
    if n > 0 {
      LeftRevived(jobs, net, n - 1, id);
    }
  }

  // The step changes an icon of the jobnet, other than by reviving it.
  predicate Works(states: seq<World>, net: NetId, steps: seq<Step>, k: nat)
    requires k < |steps| < |states|
  {
    Owns(states[k], net, steps[k]) && IconStep(steps[k]) && states[k+1].jobs != states[k].jobs
  }

  // Steps i to j that change icons of the jobnet, and revivals of them.
  function OwnSteps(states: seq<World>, net: NetId, steps: seq<Step>, i: nat, j: nat): nat
    requires i <= j <= |steps| < |states|
    decreases j
  {
    if i == j then 0
    else OwnSteps(states, net, steps, i, j - 1) + if Works(states, net, steps, j - 1) then 1 else 0
  }

  function OwnRevivals(states: seq<World>, net: NetId, steps: seq<Step>, i: nat, j: nat): nat
    requires i <= j <= |steps| < |states|
    decreases j
  {
    if i == j then 0
    else OwnRevivals(states, net, steps, i, j - 1) + if Owns(states[j-1], net, steps[j-1]) && Revives(steps[j-1]) then 1 else 0
  }

  ghost predicate Below(jobs: Jobs, net: NetId, n: nat) { forall id: JobId :: In(jobs, id, net) ==> id < n }

  // Step k takes at least one from what is left, unless it revives an icon.
  ghost predicate UsesUp(states: seq<World>, net: NetId, steps: seq<Step>, k: nat, n: nat)
    requires k < |steps| < |states|
  {
    NetLeft(states[k+1].jobs, net, n) + (if Works(states, net, steps, k) then 1 else 0)
    <= NetLeft(states[k].jobs, net, n) + if Owns(states[k], net, steps[k]) && Revives(steps[k]) then 2 else 0
  }

  lemma StepLeft(p: Plan, states: seq<World>, net: NetId, steps: seq<Step>, k: nat, n: nat)
    requires Started(p, states, net, steps) && k < |steps| && !Fresh(states[k+1].jobs, net)
    requires Below(states[k].jobs, net, n)
    ensures UsesUp(states, net, steps, k, n)
  {
    var w, s, js := states[k], steps[k], states[k+1].jobs;
    var done := DoneAt(p, states, net, steps, k);
    RunTokens(p, states, net, steps, k);
    if Owns(w, net, s) {
      OwnStep(p, w, net, done, s, Subject(s));
      if Advanced(w.jobs, js, net) {
        LeftAdvances(w.jobs, js, net, n);
        if Works(states, net, steps, k) {
          LeftLess(w.jobs, js, net, n, Subject(s));
        }
      } else {
        LeftRevived(w.jobs, net, n, s.id);
      }
    } else {
      OthersStep(p, w, net, s);
      ResetTokens(p, w.jobs, js, net, done);
      LeftAdvances(w.jobs, js, net, n);
    }
  }

  lemma {:induction false} StaysBelow(p: Plan, states: seq<World>, net: NetId, steps: seq<Step>, k: nat, n: nat)
    requires IsRun(p, states, steps) && k <= |steps| && Below(states[0].jobs, net, n)
    ensures Below(states[k].jobs, net, n)
  {
    if k > 0 {
      StaysBelow(p, states, net, steps, k - 1, n);
      NextShape(p, states[k-1], steps[k-1]);
      forall id: JobId | In(states[k].jobs, id, net) ensures id < n {
        assert In(states[k-1].jobs, id, net);
      }
    }
  }

  lemma {:induction false} LeftOver(states: seq<World>, net: NetId, steps: seq<Step>, i: nat, j: nat, n: nat)
    requires i <= j <= |steps| < |states|
    requires forall k: nat :: i <= k < j ==> UsesUp(states, net, steps, k, n)
    ensures OwnSteps(states, net, steps, i, j) + NetLeft(states[j].jobs, net, n)
         <= NetLeft(states[i].jobs, net, n) + 2 * OwnRevivals(states, net, steps, i, j)
  {
    if i < j {
      LeftOver(states, net, steps, i, j - 1, n);
      assert UsesUp(states, net, steps, j - 1, n);
    }
  }

  // Between two resets, acyclic or not, a jobnet takes at most five steps that change an
  // icon for each of its icons, and two for each revival of a failed jobnet icon.
  lemma StepsBounded(p: Plan, states: seq<World>, net: NetId, steps: seq<Step>, i: nat, j: nat, n: nat)
    requires Started(p, states, net, steps) && i <= j <= |steps| && NoReset(states, net, i, j)
    requires Below(states[0].jobs, net, n)
    ensures OwnSteps(states, net, steps, i, j)
         <= 5 * NetSize(states[i].jobs, net, n) + 2 * OwnRevivals(states, net, steps, i, j)
  {
    LeftBound(states[i].jobs, net, n);
    forall k: nat | i <= k < j ensures UsesUp(states, net, steps, k, n) {
      StaysBelow(p, states, net, steps, k, n);
      StepLeft(p, states, net, steps, k, n);
    }
    LeftOver(states, net, steps, i, j, n);
  }

  // ---- a jobnet icon that continued -------------------------------------------------

  // Jobnet icon 1, with the continue flag, leads to icon 2.
  function ContinuedPlan(): Plan { Plan([Flow(5, 1, 2, NORMAL)], map[1 := 6]) }

  function ContinuedJobs(status1: Status, endCount2: int, status2: Status): Jobs
  {
    map[1 := Job(5, JobnetIcon, false, true, 0, 0, status1), 2 := Job(5, JobIcon, false, false, 1, endCount2, status2)]
  }

  function ContinuedWorld(status1: Status, endCount2: int, status2: Status): World
  {
    World(ContinuedJobs(status1, endCount2, status2), map[5 := NET_RUN, 6 := NET_RUN])
  }

  lemma ContinuedWalk()
    ensures Targets(Outgoing(ContinuedPlan().flows, 1), NORMAL) == [2]
    ensures Outgoing(ContinuedPlan().flows, 1) == ContinuedPlan().flows
  {
    assert ContinuedPlan().flows[..0] == [];
  }

  lemma Deliver2(jobs: Jobs)
    ensures DeliverAll(jobs, ContinuedPlan().links, 1, [2]) == Deliver(jobs, ContinuedPlan().links, 1, 2)
    ensures Smooth(jobs, ContinuedPlan().links, 1, [2]) <==> !Arrive(jobs, ContinuedPlan().links, 2).Refused?
  {
    assert [2][..0] == [];
  }

  // A jobnet icon that has released its successors: it fails and goes on, is
  // revived, and completing it is refused by the successor that has started.
  lemma ContinuedIconRevived()
    ensures var p := ContinuedPlan();
      && Enabled(p, ContinuedWorld(RUN, 0, BEGIN), FailIcon(1, JOBNET_STATUS))
      && Next(p, ContinuedWorld(RUN, 0, BEGIN), FailIcon(1, JOBNET_STATUS)) == ContinuedWorld(RUNERR, 1, READY)
      && Enabled(p, ContinuedWorld(RUNERR, 1, READY), Resync(1, Revive))
      && Next(p, ContinuedWorld(RUNERR, 1, READY), Resync(1, Revive)) == ContinuedWorld(RUN, 1, READY)
      && Enabled(p, ContinuedWorld(RUN, 1, READY), Finish(1, NORMAL))
      && !CompletesSmoothly(ContinuedJobs(RUN, 1, READY), p.flows, p.links, ContinuedWorld(RUN, 1, READY).nets, 1, NORMAL)
  {
    ContinuedWalk();
    Deliver2(ContinuedJobs(RUN, 0, BEGIN));
    Deliver2(ContinuedJobs(RUN, 1, READY));
    var walked := Deliver(ContinuedJobs(RUN, 0, BEGIN), ContinuedPlan().links, 1, 2);
    assert walked == ContinuedJobs(RUN, 1, READY);
    assert Mark(Mark(walked, 1, END), 1, RUNERR) == ContinuedJobs(RUNERR, 1, READY);
    assert Mark(ContinuedJobs(RUNERR, 1, READY), 1, RUN) == ContinuedJobs(RUN, 1, READY);
  }
}
