// Exactly which steps of the server keep the token count of TokenFlow: a failed
// jobnet icon that follows its jobnet again, and a second launch.
module TokenLimits {
  import opened Common
  import opened FlowTables
  import opened Arrivals
  import opened Runs
  import opened TokenFlow

  predicate Ordinary(j: Job) { !j.test && !j.icon.IfIcon? && !j.icon.IfEndIcon? && !j.icon.LIcon? }

  // From BEGIN, tokens are counted until they suffice.
  lemma {:induction false} HitCounts(j: Job, k: nat)
    requires Ordinary(j) && j.status == BEGIN && j.endCount < j.bootCount
    ensures Hit(j, k) == if j.endCount + k < j.bootCount then j.(endCount := j.endCount + k)
                         else j.(status := READY, endCount := j.bootCount)
  {
    if k > 0 {
      HitCounts(j, k - 1);
    }
  }

  // An icon that has ended or failed starts counting afresh.
  lemma {:induction false} HitAfresh(j: Job, k: nat)
    requires Ordinary(j) && (j.status == END || j.status == RUNERR) && !j.icon.EndIcon? && k > 0
    ensures Hit(j, k) == Hit(j.(status := BEGIN, endCount := 0), k)
  {
    if k > 1 {
      HitAfresh(j, k - 1);
    } else {
      assert Hit(j, 0) == j;
    }
  }

  // A walk inside a regular jobnet does to each icon what its own flows do.
  lemma {:induction false} WalkRows(p: Plan, jobs: Jobs, net: NetId, src: JobId, dsts: seq<JobId>, x: JobId)
    requires Regular(p, jobs, net) && In(jobs, src, net) && In(jobs, x, net) && src !in dsts
    requires forall d :: d in dsts ==> In(jobs, d, net)
    ensures var js := DeliverAll(jobs, p.links, src, dsts);
      && SameShape(jobs, js)
      && js[x] == if x == src then jobs[x].(status := js[x].status) else Hit(jobs[x], Occurs(dsts, x))
  {
    if dsts != [] {
      var front, dst := dsts[..|dsts|-1], dsts[|dsts|-1];
      assert dst in dsts;
      WalkRows(p, jobs, net, src, front, x);
      var js := DeliverAll(jobs, p.links, src, front);
      RegularShape(p, jobs, js, net);
      RowStep(p, js, net, src, dst, x);
    }
  }

  lemma RowStep(p: Plan, jobs: Jobs, net: NetId, src: JobId, dst: JobId, x: JobId)
    requires Regular(p, jobs, net) && In(jobs, src, net) && In(jobs, dst, net) && In(jobs, x, net) && src != dst
    ensures var js := Deliver(jobs, p.links, src, dst);
      && SameShape(jobs, js)
      && js[x] == if x == src then jobs[x].(status := js[x].status) else if x == dst then Hit(jobs[x], 1) else jobs[x]
  {
    DeliverShape(jobs, p.links, src, dst);
    assert Hit(jobs[x], 0) == jobs[x];
  }

  // ---- completing an icon whose successors have been released -----------------------

  // A successor that refuses the flow is not harmed by it, nor is one that failed
  // for good and gets all its tokens anew.
  predicate Unharmed(p: Plan, src: JobId, d: JobId, j: Job, done: set<JobId>)
  {
    Judge(j).Refuse? || (j.status == RUNERR && d !in done && CountFrom(p.flows, d, {src}) == j.bootCount)
  }

  ghost predicate AllUnharmed(p: Plan, jobs: Jobs, done: set<JobId>, src: JobId)
  {
    forall d :: d in Targets(Outgoing(p.flows, src), NORMAL) ==> d in jobs && Unharmed(p, src, d, jobs[d], done)
  }

  lemma HitCounted(p: Plan, d: JobId, j: Job, done: set<JobId>, k: nat)
    requires Counted(p, d, j, done, 0) && !j.icon.StartIcon? && Ordinary(j) && j.bootCount == CountIn(p.flows, d)
    requires 1 <= k <= j.bootCount
    ensures Counted(p, d, Hit(j, k), done, 0) <==> Judge(j).Refuse? || (j.status == RUNERR && d !in done && k == j.bootCount)
  {
    CountBound(p.flows, d, done);
    if Judge(j).Refuse? {
      HitRefused(j, k);
    } else if j.status == BEGIN {
      HitCounts(j, k);
    } else {
      HitAfresh(j, k);
      HitCounts(j.(status := BEGIN, endCount := 0), k);
    }
  }

  lemma OccursCounts(p: Plan, src: JobId, d: JobId)
    ensures Occurs(Targets(Outgoing(p.flows, src), NORMAL), d) == CountFrom(p.flows, d, {src})
    ensures CountFrom(p.flows, d, {src}) <= CountIn(p.flows, d)
  {
    CountOneMore(p.flows, d, {}, src);
    CountNone(p.flows, d);
    CountBound(p.flows, d, {src});
    assert {} + {src} == {src};
  }

  lemma TargetsInside(p: Plan, jobs: Jobs, net: NetId, src: JobId)
    requires Regular(p, jobs, net) && In(jobs, src, net)
    ensures forall d :: d in Targets(Outgoing(p.flows, src), NORMAL) ==> In(jobs, d, net) && !jobs[d].icon.StartIcon?
  {
    forall d | d in Targets(Outgoing(p.flows, src), NORMAL) ensures In(jobs, d, net) && !jobs[d].icon.StartIcon? {
      TargetOf(p.flows, src, d);
    }
  }

  // One icon after the walk of a completed icon that is completed again.
  lemma RowCounted(p: Plan, jobs: Jobs, net: NetId, done: set<JobId>, src: JobId, last: Status, x: JobId)
    requires Tokens(p, jobs, net, done) && In(jobs, src, net) && src in done && In(jobs, x, net)
    requires src !in Targets(Outgoing(p.flows, src), NORMAL) && Ends(jobs[src], last)
    ensures var dsts := Targets(Outgoing(p.flows, src), NORMAL);
      var js := Mark(DeliverAll(jobs, p.links, src, dsts), src, last);
      && SameShape(jobs, js)
      && (Counted(p, x, js[x], done, 0) <==> x !in dsts || Unharmed(p, src, x, jobs[x], done))
  {
    var dsts := Targets(Outgoing(p.flows, src), NORMAL);
    TargetsInside(p, jobs, net, src);
    WalkRows(p, jobs, net, src, dsts, x);
    MarkShape(DeliverAll(jobs, p.links, src, dsts), src, last);
    OccursIn(dsts, x);
    OccursCounts(p, src, x);
    assert Counted(p, x, jobs[x], done, 0);
    if x in dsts {
      HitCounted(p, x, jobs[x], done, Occurs(dsts, x));
    }
  }

  lemma RewalkExact(p: Plan, jobs: Jobs, net: NetId, done: set<JobId>, src: JobId, last: Status)
    requires Tokens(p, jobs, net, done) && In(jobs, src, net) && src in done
    requires src !in Targets(Outgoing(p.flows, src), NORMAL) && Ends(jobs[src], last)
    ensures Tokens(p, Mark(DeliverAll(jobs, p.links, src, Targets(Outgoing(p.flows, src), NORMAL)), src, last), net, done)
       <==> AllUnharmed(p, jobs, done, src)
  {
    var dsts := Targets(Outgoing(p.flows, src), NORMAL);
    var js := Mark(DeliverAll(jobs, p.links, src, dsts), src, last);
    TargetsInside(p, jobs, net, src);
    forall x | In(jobs, x, net)
      ensures In(js, x, net) && (Counted(p, x, js[x], done, Occurs([], x)) <==> x !in dsts || Unharmed(p, src, x, jobs[x], done))
    {
      RowCounted(p, jobs, net, done, src, last, x);
    }
    RowCounted(p, jobs, net, done, src, last, src);
    RegularShape(p, jobs, js, net);
    assert forall x :: In(js, x, net) ==> In(jobs, x, net);
    if AllUnharmed(p, jobs, done, src) {
      assert Tokens(p, js, net, done);
    } else {
      var d :| d in dsts && !(d in jobs && Unharmed(p, src, d, jobs[d], done));
      assert In(jobs, d, net) && !Counted(p, d, js[d], done, Occurs([], d));
    }
  }

  // ---- a failed jobnet icon follows its jobnet again ---------------------------------

  // When that keeps the count: the icon has not released its successors, or it is
  // completed again and that is stopped, or harms none of them.
  ghost predicate Harmless(p: Plan, w: World, net: NetId, done: set<JobId>, id: JobId, how: Again)
  {
    id !in done || ((how.Finished? || how.FailAgain?) && (!Running(w.nets, net) || AllUnharmed(p, w.jobs, done, id)))
  }

  // An icon that has released its successors is completed again.
  lemma AgainExact(p: Plan, w: World, net: NetId, done: set<JobId>, id: JobId, last: Status)
    requires Tokens(p, w.jobs, net, done) && EndsAtEnd(p, w.jobs, net) && Linked(w.jobs, p, id) && w.jobs[id].status == RUNERR
    requires In(w.jobs, id, net) && id in done && id !in Targets(Outgoing(p.flows, id), NORMAL) && Ends(w.jobs[id], last)
    ensures var js := Mark(Complete(w.jobs, p.flows, p.links, w.nets, id, NORMAL), id, if Running(w.nets, net) then last else RUNERR);
      Tokens(p, js, net, done) <==> !Running(w.nets, net) || AllUnharmed(p, w.jobs, done, id)
  {
    OutNet(p, w.jobs, net, id);
    if Running(w.nets, net) {
      MarkTwice(DeliverAll(w.jobs, p.links, id, Targets(Outgoing(p.flows, id), NORMAL)), id, END, last);
      RewalkExact(p, w.jobs, net, done, id, last);
    } else {
      MarkTwice(w.jobs, id, RUNERR, RUNERR);
      assert Mark(w.jobs, id, RUNERR) == w.jobs;
    }
  }

  lemma ReleasedExact(p: Plan, w: World, net: NetId, done: set<JobId>, id: JobId, how: Again)
    requires Tokens(p, w.jobs, net, done) && EndsAtEnd(p, w.jobs, net) && Enabled(p, w, Resync(id, how))
    requires In(w.jobs, id, net) && id in done && id !in Targets(Outgoing(p.flows, id), NORMAL)
    ensures Tokens(p, Next(p, w, Resync(id, how)).jobs, net, done) <==> Harmless(p, w, net, done, id, how)
  {
    var js := Next(p, w, Resync(id, how)).jobs;
    assert Counted(p, id, w.jobs[id], done, 0);
    match how
    case Revive => assert In(js, id, net) && !Counted(p, id, js[id], done, 0);
    case Stop => assert In(js, id, net) && !Counted(p, id, js[id], done, 0);
    case Finished =>
      AgainExact(p, w, net, done, id, END);
      FinishWrites(p, w, net, id);
    case FailAgain =>
      AgainExact(p, w, net, done, id, RUNERR);
  }

  // Whatever the continue flag: following its jobnet keeps the count exactly when
  // it is harmless.
  lemma ResyncExact(p: Plan, w: World, net: NetId, done: set<JobId>, id: JobId, how: Again)
    requires Tokens(p, w.jobs, net, done) && EndsAtEnd(p, w.jobs, net) && Enabled(p, w, Resync(id, how))
    requires In(w.jobs, id, net) && id !in Targets(Outgoing(p.flows, id), NORMAL)
    ensures Tokens(p, Next(p, w, Resync(id, how)).jobs, net, done + Completed(w, net, Resync(id, how)))
       <==> Harmless(p, w, net, done, id, how)
  {
    if id in done {
      assert done + Completed(w, net, Resync(id, how)) == done;
      ReleasedExact(p, w, net, done, id, how);
    } else {
      OwnResync(p, w, net, done, id, how);
    }
  }

  // ---- the flow of an icon to itself -------------------------------------------------

  lemma CompletedHasBegun(p: Plan, w: World, net: NetId, s: Step, id: JobId)
    requires Enabled(p, w, s) && id in Completed(w, net, s)
    ensures In(w.jobs, id, net) && w.jobs[id].status != BEGIN
  {
  }

  // An icon that waits for itself never starts.
  lemma {:induction false} NeverStartsItself(p: Plan, states: seq<World>, net: NetId, steps: seq<Step>, n: nat, f: Flow)
    requires Started(p, states, net, steps) && n <= |steps|
    requires f in p.flows && f.start == f.end && In(states[n].jobs, f.end, net)
    ensures states[n].jobs[f.end].status == BEGIN && f.end !in DoneAt(p, states, net, steps, n)
  {
    RunTokens(p, states, net, steps, n);
    var done := DoneAt(p, states, net, steps, n);
    assert Counted(p, f.end, states[n].jobs[f.end], done, 0);
    if n > 0 {
      NextShape(p, states[n-1], steps[n-1]);
      NeverStartsItself(p, states, net, steps, n - 1, f);
      if f.end in Completed(states[n-1], net, steps[n-1]) {
        CompletedHasBegun(p, states[n-1], net, steps[n-1], f.end);
      }
      StartsAfterPredecessors(p, states[n].jobs, net, done, f.end);
    }
  }

  // So in a run: a failed jobnet icon that follows its jobnet keeps the count
  // exactly when that is harmless.
  lemma ResyncInRun(p: Plan, states: seq<World>, net: NetId, steps: seq<Step>, id: JobId, how: Again)
    requires Started(p, states, net, steps) && Enabled(p, states[|steps|], Resync(id, how)) && In(states[|steps|].jobs, id, net)
    ensures var w, done := states[|steps|], DoneAt(p, states, net, steps, |steps|);
      Tokens(p, Next(p, w, Resync(id, how)).jobs, net, done + Completed(w, net, Resync(id, how)))
      <==> Harmless(p, w, net, done, id, how)
  {
    RunTokens(p, states, net, steps, |steps|);
    if id in Targets(Outgoing(p.flows, id), NORMAL) {
      TargetOf(p.flows, id, id);
      var f :| f in p.flows && f.start == id && f.end == id;
      NeverStartsItself(p, states, net, steps, |steps|, f);
    }
    ResyncExact(p, states[|steps|], net, DoneAt(p, states, net, steps, |steps|), id, how);
  }

  // ---- refusals ----------------------------------------------------------------------

  predicate Refuses(jobs: Jobs, d: JobId) { d in jobs && Judge(jobs[d]).Refuse? }

  lemma {:induction false} SmoothFront(jobs: Jobs, links: Links, src: JobId, dsts: seq<JobId>, n: nat)
    requires n <= |dsts| && Smooth(jobs, links, src, dsts)
    ensures Smooth(jobs, links, src, dsts[..n])
  {
    if n < |dsts| {
      assert dsts[..|dsts|-1][..n] == dsts[..n];
      SmoothFront(jobs, links, src, dsts[..|dsts|-1], n);
    } else {
      assert dsts[..n] == dsts;
    }
  }

  // A walk that leads to an icon that refuses takes an error branch.
  lemma RefusedSomewhere(p: Plan, jobs: Jobs, net: NetId, src: JobId, dsts: seq<JobId>, i: nat)
    requires Regular(p, jobs, net) && In(jobs, src, net) && src !in dsts && i < |dsts|
    requires forall d :: d in dsts ==> In(jobs, d, net)
    requires Refuses(jobs, dsts[i])
    ensures !Smooth(jobs, p.links, src, dsts)
  {
    var front, d := dsts[..i], dsts[i];
    if Smooth(jobs, p.links, src, dsts) {
      SmoothFront(jobs, p.links, src, dsts, i + 1);
      assert dsts[..i+1][..i] == front;
      WalkRows(p, jobs, net, src, front, d);
      HitRefused(jobs[d], Occurs(front, d));
    }
  }

  ghost predicate Apart(dsts: seq<JobId>) { forall i, j :: 0 <= i < j < |dsts| ==> dsts[i] != dsts[j] }

  // If no two of its flows lead to one icon, that is the only way to an error.
  lemma {:induction false} SmoothExact(p: Plan, jobs: Jobs, net: NetId, src: JobId, dsts: seq<JobId>)
    requires Regular(p, jobs, net) && In(jobs, src, net) && src !in dsts && Apart(dsts)
    requires forall d :: d in dsts ==> In(jobs, d, net)
    ensures Smooth(jobs, p.links, src, dsts) <==> forall d :: d in dsts ==> !Refuses(jobs, d)
  {
    if dsts != [] {
      var front, d := dsts[..|dsts|-1], dsts[|dsts|-1];
      SmoothExact(p, jobs, net, src, front);
      assert forall x :: x in dsts <==> x in front || x == d;
      OccursIn(front, d);
      WalkRows(p, jobs, net, src, front, d);
      assert Hit(jobs[d], 0) == jobs[d];
      var js := DeliverAll(jobs, p.links, src, front);
      RegularShape(p, jobs, js, net);
      assert RegularIcon(p, net, d, js[d]);
      assert Arrive(js, p.links, d).Refused? <==> Judge(js[d]).Refuse?;
    }
  }

  // A failed jobnet icon that is set back to RUN and completed takes an error
  // branch if a successor refuses: it is READY, RUN or ABORT, has ended in error,
  // or is an END icon that has ended or failed. If no two of its flows lead to
  // one icon, exactly then.
  lemma RevivedIsRefused(p: Plan, w: World, net: NetId, id: JobId)
    requires Regular(p, w.jobs, net) && EndsAtEnd(p, w.jobs, net) && Enabled(p, w, Resync(id, Revive)) && In(w.jobs, id, net)
    requires Running(w.nets, net) && id !in Targets(Outgoing(p.flows, id), NORMAL)
    ensures var jobs, dsts := Next(p, w, Resync(id, Revive)).jobs, Targets(Outgoing(p.flows, id), NORMAL);
      && ((exists d :: d in dsts && Refuses(w.jobs, d)) ==> !CompletesSmoothly(jobs, p.flows, p.links, w.nets, id, NORMAL))
      && (Apart(dsts) ==>
            (CompletesSmoothly(jobs, p.flows, p.links, w.nets, id, NORMAL) <==> forall d :: d in dsts ==> !Refuses(w.jobs, d)))
  {
    var jobs, dsts := Mark(w.jobs, id, RUN), Targets(Outgoing(p.flows, id), NORMAL);
    MarkShape(w.jobs, id, RUN);
    RegularShape(p, w.jobs, jobs, net);
    TargetsInside(p, w.jobs, net, id);
    OutNet(p, w.jobs, net, id);
    assert forall d :: d in dsts ==> jobs[d] == w.jobs[d];
    if d :| d in dsts && Refuses(w.jobs, d) {
      var i :| 0 <= i < |dsts| && dsts[i] == d;
      RefusedSomewhere(p, jobs, net, id, dsts, i);
    }
    if Apart(dsts) {
      SmoothExact(p, jobs, net, id, dsts);
    }
  }

  // ---- a second launch ---------------------------------------------------------------

  // A launch keeps the count and takes no icon back exactly when the start icon
  // has not started; otherwise it can be started again.
  lemma RelaunchExact(p: Plan, w: World, net: NetId, done: set<JobId>, start: JobId)
    requires Tokens(p, w.jobs, net, done) && Enabled(p, w, Launch(net, start))
    ensures var next := Next(p, w, Launch(net, start));
      && (Tokens(p, next.jobs, net, done) && Moved(w.jobs, next.jobs, net, Launch(net, start))
          <==> w.jobs[start].status == BEGIN || w.jobs[start].status == READY)
      && Enabled(p, next, RunIcon(start))
  {
    assert Counted(p, start, w.jobs[start], done, 0);
    if w.jobs[start].status == BEGIN || w.jobs[start].status == READY {
      MarkTokens(p, w.jobs, net, done, start, READY);
    } else {
      assert In(w.jobs, start, net) && Left(READY) > Left(w.jobs[start].status);
    }
  }
}
