// Join counting over whole runs: in a jobnet whose boot counts are the numbers
// of incoming flows (as get_boot_count in
// src/jobarg_server/jaloader/jaloader.c computes them), whose icons are
// ordinary and whose test flag is off, no icon starts before all its
// predecessors are completed, and none starts twice.
module TokenFlow {
  import opened Common
  import opened FlowTables
  import opened Arrivals
  import opened Runs

  predicate In(jobs: Jobs, id: JobId, net: NetId) { id in jobs && jobs[id].net == net }

  // Incoming flows, and those that start at a completed icon.
  function CountIn(flows: seq<Flow>, x: JobId): nat
  {
    if flows == [] then 0 else CountIn(flows[..|flows|-1], x) + if flows[|flows|-1].end == x then 1 else 0
  }

  function CountFrom(flows: seq<Flow>, x: JobId, done: set<JobId>): nat
  {
    if flows == [] then 0
    else CountFrom(flows[..|flows|-1], x, done) + if flows[|flows|-1].end == x && flows[|flows|-1].start in done then 1 else 0
  }

  // What a jobnet must look like for its joins to count correctly.
  predicate RegularIcon(p: Plan, net: NetId, id: JobId, j: Job)
  {
    && !j.test && !j.icon.IfIcon? && !j.icon.IfEndIcon? && !j.icon.LIcon?
    && (!j.icon.StartIcon? ==> j.bootCount == CountIn(p.flows, id) >= 1)
    && (j.icon.JobnetIcon? ==> id in p.links && p.links[id] != net)
  }

  ghost predicate Regular(p: Plan, jobs: Jobs, net: NetId)
  {
    && (forall id :: In(jobs, id, net) ==> RegularIcon(p, net, id, jobs[id]))
    && (forall f :: f in p.flows && (In(jobs, f.start, net) || In(jobs, f.end, net)) ==>
          f.net == net && In(jobs, f.start, net) && In(jobs, f.end, net) && !jobs[f.end].icon.StartIcon?)
  }

  // The state of one icon when the icons in done have been completed and the
  // walk of one more has passed on tokens to it.
  predicate Counted(p: Plan, id: JobId, j: Job, done: set<JobId>, tokens: nat)
  {
    && (j.status == END ==> id in done)
    && (id in done ==> j.status == END || (j.status == RUNERR && j.cont))
    && (!j.icon.StartIcon? ==>
          j.endCount == CountFrom(p.flows, id, done) + tokens && (j.status == BEGIN <==> j.endCount < j.bootCount))
  }

  ghost predicate Walking(p: Plan, jobs: Jobs, net: NetId, done: set<JobId>, dsts: seq<JobId>)
  {
    && Regular(p, jobs, net)
    && (forall id :: id in done ==> In(jobs, id, net))
    && (forall id :: In(jobs, id, net) ==> Counted(p, id, jobs[id], done, Occurs(dsts, id)))
  }

  // The invariant. done holds the END icons, and the RUNERR icons whose
  // successors were released all the same.
  ghost predicate Tokens(p: Plan, jobs: Jobs, net: NetId, done: set<JobId>)
  {
    Walking(p, jobs, net, done, [])
  }

  // The icons as a reset leaves them.
  ghost predicate Fresh(jobs: Jobs, net: NetId)
  {
    forall id :: In(jobs, id, net) ==> jobs[id].status == BEGIN && jobs[id].endCount == 0
  }

  // ---- counting ---------------------------------------------------------------

  lemma {:induction false} CountBound(flows: seq<Flow>, x: JobId, done: set<JobId>)
    ensures CountFrom(flows, x, done) <= CountIn(flows, x)
    ensures CountFrom(flows, x, done) == CountIn(flows, x) <==> forall f :: f in flows && f.end == x ==> f.start in done
  {
    if flows != [] {
      var front, last := flows[..|flows|-1], flows[|flows|-1];
      CountBound(front, x, done);
      assert forall f :: f in flows <==> f in front || f == last;
    }
  }

  lemma {:induction false} CountNone(flows: seq<Flow>, x: JobId)
    ensures CountFrom(flows, x, {}) == 0
  {
    if flows != [] {
      CountNone(flows[..|flows|-1], x);
    }
  }

  // Completing one more icon adds the flows its walk follows.
  lemma {:induction false} CountOneMore(flows: seq<Flow>, x: JobId, done: set<JobId>, src: JobId)
    requires src !in done
    ensures CountFrom(flows, x, done + {src}) == CountFrom(flows, x, done) + Occurs(Targets(Outgoing(flows, src), NORMAL), x)
  {
    if flows != [] {
      var front, last := flows[..|flows|-1], flows[|flows|-1];
      CountOneMore(front, x, done, src);
      OutgoingNext(flows, src);
      if last.start == src {
        TargetsAppend(Outgoing(front, src), last, NORMAL);
        OccursOne(Targets(Outgoing(front, src), NORMAL), last.end, x);
      }
    }
  }

  // ---- one walk inside the jobnet ----------------------------------------------

  // What an icon still has before it.
  function Left(s: Status): nat
  {
    match s
    case BEGIN => 5
    case READY => 4
    case RUN => 3
    case ABORT => 2
    case RUNERR => 1
    case _ => 0
  }

  ghost predicate Advanced(a: Jobs, b: Jobs, net: NetId)
  {
    SameShape(a, b) && forall id :: In(a, id, net) ==> Left(b[id].status) <= Left(a[id].status)
  }

  // A started icon that may still be completed.
  predicate Open(id: JobId, j: Job, done: set<JobId>) { (Going(j) || j.status == RUNERR) && id !in done }

  lemma AdvancedTwice(a: Jobs, b: Jobs, c: Jobs, net: NetId)
    requires Advanced(a, b, net) && Advanced(b, c, net)
    ensures Advanced(a, c, net)
  {
  }

  lemma RegularShape(p: Plan, a: Jobs, b: Jobs, net: NetId)
    requires Regular(p, a, net) && SameShape(a, b)
    ensures Regular(p, b, net)
  {
  }

  // A flow into an icon at BEGIN is taken and changes no other icon of the jobnet.
  lemma TakenFlow(p: Plan, jobs: Jobs, net: NetId, src: JobId, dst: JobId)
    requires In(jobs, dst, net) && RegularIcon(p, net, dst, jobs[dst]) && jobs[dst].status == BEGIN
    ensures Arrive(jobs, p.links, dst).Arrived?
    ensures var js := Deliver(jobs, p.links, src, dst); var j := jobs[dst];
      && SameShape(jobs, js)
      && (forall id: JobId :: In(jobs, id, net) && id != dst ==> js[id] == jobs[id])
      && js[dst] == j.(status := if j.bootCount <= j.endCount + 1 then READY else BEGIN, endCount := j.endCount + 1)
  {
    DeliverShape(jobs, p.links, src, dst);
  }

  // The tokens still to come fit: the target is at BEGIN, so the flow is taken.
  lemma WalkStep(p: Plan, jobs: Jobs, net: NetId, done: set<JobId>, src: JobId, dsts: seq<JobId>, dst: JobId)
    requires Walking(p, jobs, net, done, dsts)
    requires In(jobs, dst, net) && !jobs[dst].icon.StartIcon? && dst != src
    requires CountFrom(p.flows, dst, done) + Occurs(dsts + [dst], dst) <= CountIn(p.flows, dst)
    ensures Arrive(jobs, p.links, dst).Arrived?
    ensures var js := Deliver(jobs, p.links, src, dst);
      Walking(p, js, net, done, dsts + [dst]) && Advanced(jobs, js, net) && (In(jobs, src, net) ==> js[src] == jobs[src])
  {
    var js := Deliver(jobs, p.links, src, dst);
    OccursOne(dsts, dst, dst);
    assert Counted(p, dst, jobs[dst], done, Occurs(dsts, dst));
    TakenFlow(p, jobs, net, src, dst);
    RegularShape(p, jobs, js, net);
    forall id: JobId | In(js, id, net) ensures Counted(p, id, js[id], done, Occurs(dsts + [dst], id)) {
      OccursOne(dsts, dst, id);
      assert Counted(p, id, jobs[id], done, Occurs(dsts, id));
    }
  }

  // The walk leaves its source alone and has room for all its tokens.
  predicate Roomy(p: Plan, jobs: Jobs, net: NetId, done: set<JobId>, src: JobId, dsts: seq<JobId>)
  {
    forall d :: d in dsts ==>
      && In(jobs, d, net) && !jobs[d].icon.StartIcon? && d != src
      && CountFrom(p.flows, d, done) + Occurs(dsts, d) <= CountIn(p.flows, d)
  }

  lemma RoomyFront(p: Plan, jobs: Jobs, net: NetId, done: set<JobId>, src: JobId, front: seq<JobId>, dst: JobId)
    requires Roomy(p, jobs, net, done, src, front + [dst])
    ensures Roomy(p, jobs, net, done, src, front)
    ensures In(jobs, dst, net) && !jobs[dst].icon.StartIcon? && dst != src
    ensures CountFrom(p.flows, dst, done) + Occurs(front + [dst], dst) <= CountIn(p.flows, dst)
  {
    forall d | d in front ensures d in front + [dst] && Occurs(front, d) <= Occurs(front + [dst], d) {
      OccursOne(front, dst, d);
    }
    assert (front + [dst])[|front|] == dst;
  }

  lemma {:induction false} Walk(p: Plan, jobs: Jobs, net: NetId, done: set<JobId>, src: JobId, dsts: seq<JobId>)
    requires Tokens(p, jobs, net, done) && In(jobs, src, net) && Roomy(p, jobs, net, done, src, dsts)
    ensures Smooth(jobs, p.links, src, dsts)
    ensures var js := DeliverAll(jobs, p.links, src, dsts);
      Walking(p, js, net, done, dsts) && Advanced(jobs, js, net) && js[src] == jobs[src]
  {
    if dsts != [] {
      var front, dst := dsts[..|dsts|-1], dsts[|dsts|-1];
      assert front + [dst] == dsts;
      RoomyFront(p, jobs, net, done, src, front, dst);
      Walk(p, jobs, net, done, src, front);
      var js := DeliverAll(jobs, p.links, src, front);
      WalkStep(p, js, net, done, src, front, dst);
      AdvancedTwice(jobs, js, Deliver(js, p.links, src, dst), net);
    }
  }

  lemma Room(p: Plan, jobs: Jobs, net: NetId, done: set<JobId>, src: JobId)
    requires Tokens(p, jobs, net, done) && In(jobs, src, net) && Open(src, jobs[src], done)
    ensures Roomy(p, jobs, net, done, src, Targets(Outgoing(p.flows, src), NORMAL))
  {
    var dsts := Targets(Outgoing(p.flows, src), NORMAL);
    forall d | d in dsts
      ensures In(jobs, d, net) && !jobs[d].icon.StartIcon? && d != src
      ensures CountFrom(p.flows, d, done) + Occurs(dsts, d) <= CountIn(p.flows, d)
    {
      CountOneMore(p.flows, d, done, src);
      CountBound(p.flows, d, done + {src});
      TargetOf(p.flows, src, d);
      CountBound(p.flows, src, done);
    }
  }

  // A completed icon ends, or keeps its error and goes on.
  predicate Ends(j: Job, last: Status) { last == END || (last == RUNERR && j.cont) }

  lemma MarkShape(jobs: Jobs, id: JobId, status: Status)
    ensures SameShape(jobs, Mark(jobs, id, status))
  {
  }

  // The walk over, its tokens are those of one more completed icon.
  lemma IconEnds(p: Plan, id: JobId, j: Job, done: set<JobId>, src: JobId, last: Status)
    requires Counted(p, id, j, done, Occurs(Targets(Outgoing(p.flows, src), NORMAL), id)) && src !in done
    requires id == src ==> j.status != BEGIN && (last == END || (last == RUNERR && j.cont))
    ensures Counted(p, id, if id == src then j.(status := last) else j, done + {src}, 0)
  {
    CountOneMore(p.flows, id, done, src);
  }

  lemma MarkAdvanced(jobs: Jobs, net: NetId, id: JobId, status: Status)
    requires In(jobs, id, net) && Left(status) <= Left(jobs[id].status)
    ensures Advanced(jobs, Mark(jobs, id, status), net)
  {
    MarkShape(jobs, id, status);
  }

  lemma TokensEnd(p: Plan, walked: Jobs, net: NetId, done: set<JobId>, src: JobId, last: Status)
    requires Walking(p, walked, net, done, Targets(Outgoing(p.flows, src), NORMAL))
    requires In(walked, src, net) && Open(src, walked[src], done) && Ends(walked[src], last)
    ensures Tokens(p, Mark(walked, src, last), net, done + {src})
  {
    var js := Mark(walked, src, last);
    MarkShape(walked, src, last);
    RegularShape(p, walked, js, net);
    forall id: JobId | In(js, id, net) ensures Counted(p, id, js[id], done + {src}, Occurs([], id)) {
      assert In(walked, id, net);
      IconEnds(p, id, walked[id], done, src, last);
    }
  }

  lemma WalkEnds(p: Plan, walked: Jobs, net: NetId, done: set<JobId>, src: JobId, last: Status)
    requires Walking(p, walked, net, done, Targets(Outgoing(p.flows, src), NORMAL))
    requires In(walked, src, net) && Open(src, walked[src], done) && Ends(walked[src], last)
    ensures Tokens(p, Mark(walked, src, last), net, done + {src}) && Advanced(walked, Mark(walked, src, last), net)
  {
    TokensEnd(p, walked, net, done, src, last);
    MarkAdvanced(walked, net, src, last);
  }

  lemma OutNet(p: Plan, jobs: Jobs, net: NetId, src: JobId)
    requires Regular(p, jobs, net) && In(jobs, src, net) && Outgoing(p.flows, src) != []
    ensures Outgoing(p.flows, src)[0].net == net
  {
    OutgoingIn(p.flows, src);
    assert Outgoing(p.flows, src)[0] in Outgoing(p.flows, src);
  }

  lemma WholeWalk(p: Plan, jobs: Jobs, net: NetId, done: set<JobId>, src: JobId, last: Status)
    requires Tokens(p, jobs, net, done) && In(jobs, src, net) && Open(src, jobs[src], done) && Ends(jobs[src], last)
    ensures var dsts := Targets(Outgoing(p.flows, src), NORMAL);
      var js := Mark(DeliverAll(jobs, p.links, src, dsts), src, last);
      Smooth(jobs, p.links, src, dsts) && Tokens(p, js, net, done + {src}) && Advanced(jobs, js, net)
  {
    var dsts := Targets(Outgoing(p.flows, src), NORMAL);
    Room(p, jobs, net, done, src);
    Walk(p, jobs, net, done, src, dsts);
    var walked := DeliverAll(jobs, p.links, src, dsts);
    assert In(walked, src, net);
    WalkEnds(p, walked, net, done, src, last);
    AdvancedTwice(jobs, walked, Mark(walked, src, last), net);
  }

  // A completion that follows every flow takes no error branch, and counts as
  // exactly one more completed icon.
  lemma CompletionCounts(p: Plan, jobs: Jobs, nets: Nets, net: NetId, done: set<JobId>, src: JobId, last: Status)
    requires Tokens(p, jobs, net, done) && In(jobs, src, net) && Open(src, jobs[src], done)
    requires Running(nets, net) && Outgoing(p.flows, src) != [] && Ends(jobs[src], last)
    ensures CompletesSmoothly(jobs, p.flows, p.links, nets, src, NORMAL)
    ensures var js := Mark(Complete(jobs, p.flows, p.links, nets, src, NORMAL), src, last);
      Tokens(p, js, net, done + {src}) && Advanced(jobs, js, net)
  {
    OutNet(p, jobs, net, src);
    WholeWalk(p, jobs, net, done, src, last);
    var walked := DeliverAll(jobs, p.links, src, Targets(Outgoing(p.flows, src), NORMAL));
    MarkTwice(walked, src, END, last);
  }

  // A status change that is not the end of a walk.
  lemma MarkTokens(p: Plan, jobs: Jobs, net: NetId, done: set<JobId>, id: JobId, status: Status)
    requires Tokens(p, jobs, net, done) && In(jobs, id, net) && id !in done
    requires ((jobs[id].status == BEGIN || jobs[id].status == READY) && jobs[id].icon.StartIcon? && status == READY)
          || (jobs[id].status != BEGIN && (status == RUN || status == ABORT || status == RUNERR || status == ENDERR))
    ensures Tokens(p, Mark(jobs, id, status), net, done)
    ensures Left(status) <= Left(jobs[id].status) ==> Advanced(jobs, Mark(jobs, id, status), net)
  {
  }

  // An icon without outgoing flows ends.
  lemma LastIcon(p: Plan, jobs: Jobs, net: NetId, done: set<JobId>, src: JobId, last: Status)
    requires Tokens(p, jobs, net, done) && In(jobs, src, net) && Open(src, jobs[src], done)
    requires Outgoing(p.flows, src) == [] && Ends(jobs[src], last)
    ensures Tokens(p, Mark(jobs, src, last), net, done + {src}) && Advanced(jobs, Mark(jobs, src, last), net)
  {
    WalkEnds(p, jobs, net, done, src, last);
  }

  // ---- steps of other jobnets ---------------------------------------------------

  // The icons of the jobnet keep their rows, or all of them are reset.
  ghost predicate KeptOrReset(a: Jobs, b: Jobs, net: NetId)
  {
    && SameShape(a, b)
    && ((forall id :: In(a, id, net) ==> b[id] == a[id])
        || (forall id :: In(a, id, net) ==> b[id] == a[id].(status := BEGIN, endCount := 0)))
  }

  lemma {:induction false} OthersWalk(p: Plan, jobs: Jobs, net: NetId, src: JobId, dsts: seq<JobId>)
    requires !In(jobs, src, net) && forall d :: d in dsts ==> !In(jobs, d, net)
    ensures KeptOrReset(jobs, DeliverAll(jobs, p.links, src, dsts), net)
  {
    if dsts != [] {
      var front, dst := dsts[..|dsts|-1], dsts[|dsts|-1];
      OthersWalk(p, jobs, net, src, front);
      assert dst in dsts;
      var js := DeliverAll(jobs, p.links, src, front);
      DeliverShape(js, p.links, src, dst);
      assert !In(js, dst, net) && !In(js, src, net);
    }
  }

  lemma OthersMark(a: Jobs, b: Jobs, net: NetId, src: JobId, status: Status)
    requires KeptOrReset(a, b, net) && !In(a, src, net)
    ensures KeptOrReset(a, Mark(b, src, status), net)
  {
  }

  lemma OthersComplete(p: Plan, jobs: Jobs, nets: Nets, net: NetId, src: JobId, kind: FlowKind)
    requires Regular(p, jobs, net) && src in jobs && jobs[src].net != net
    ensures KeptOrReset(jobs, Complete(jobs, p.flows, p.links, nets, src, kind), net)
  {
    var dsts := Targets(Outgoing(p.flows, src), kind);
    forall d | d in dsts ensures !In(jobs, d, net) {
      TargetsAll(Outgoing(p.flows, src), kind, d);
      TargetOf(p.flows, src, d);
    }
    OthersWalk(p, jobs, net, src, dsts);
    OthersMark(jobs, jobs, net, src, ENDERR);
    OthersMark(jobs, jobs, net, src, RUNERR);
    OthersMark(jobs, DeliverAll(jobs, p.links, src, dsts), net, src, END);
  }

  lemma ResetTokens(p: Plan, a: Jobs, b: Jobs, net: NetId, done: set<JobId>)
    requires Tokens(p, a, net, done) && KeptOrReset(a, b, net)
    ensures Tokens(p, b, net, if Fresh(b, net) then {} else done) && (Fresh(b, net) || Advanced(a, b, net))
  {
    RegularShape(p, a, b, net);
    forall x: JobId ensures CountFrom(p.flows, x, {}) == 0 {
      CountNone(p.flows, x);
    }
    if Fresh(b, net) {
      assert forall id :: In(b, id, net) ==> Counted(p, id, b[id], {}, 0);
    } else {
      assert forall id :: In(a, id, net) ==> b[id] == a[id];
    }
  }

  // ---- steps and runs --------------------------------------------------------------

  // What is asked of the server: a jobnet is launched once per reset, an
  // ordinary icon is completed along all its flows, and a failed jobnet icon
  // follows its jobnet only if it has not released its successors.
  predicate Orderly(w: World, net: NetId, done: set<JobId>, s: Step)
  {
    match s
    case Launch(n, start) => n == net && start in w.jobs ==> w.jobs[start].status == BEGIN || w.jobs[start].status == READY
    case Finish(id, kind) => In(w.jobs, id, net) ==> kind == NORMAL
    case Resync(id, _) => In(w.jobs, id, net) ==> id !in done
    case _ => true
  }

  // The icon of the jobnet whose successors a step releases, or that ends.
  function Completed(w: World, net: NetId, s: Step): set<JobId>
  {
    match s
    case Finish(id, _) => if In(w.jobs, id, net) && Running(w.nets, net) then {id} else {}
    case FinishEnd(id) => if In(w.jobs, id, net) then {id} else {}
    case FailIcon(id, iconStatus) =>
      if In(w.jobs, id, net) && Running(w.nets, net) && FailGoesOn(w.jobs[id], iconStatus) then {id} else {}
    case Resync(id, how) =>
      if In(w.jobs, id, net) && Running(w.nets, net) && (how.Finished? || (how.FailAgain? && FailGoesOn(w.jobs[id], JOBNET_STATUS)))
      then {id} else {}
    case _ => {}
  }

  ghost function DoneAfter(p: Plan, w: World, net: NetId, done: set<JobId>, s: Step): set<JobId>
    requires Enabled(p, w, s)
  {
    if Fresh(Next(p, w, s).jobs, net) then {} else done + Completed(w, net, s)
  }

  // An END icon has no outgoing flow, every other icon has one.
  ghost predicate EndsAtEnd(p: Plan, jobs: Jobs, net: NetId)
  {
    forall id :: In(jobs, id, net) ==> (jobs[id].icon.EndIcon? <==> Outgoing(p.flows, id) == [])
  }

  // Completing an icon that ends, fails and goes on, or is stopped because its
  // jobnet does not run.
  lemma FinishTokens(p: Plan, w: World, net: NetId, done: set<JobId>, id: JobId, last: Status)
    requires Tokens(p, w.jobs, net, done) && EndsAtEnd(p, w.jobs, net)
    requires In(w.jobs, id, net) && Open(id, w.jobs[id], done) && Ends(w.jobs[id], last)
    requires last == END ==> !w.jobs[id].icon.EndIcon?
    ensures var js := Mark(Complete(w.jobs, p.flows, p.links, w.nets, id, NORMAL), id, if Running(w.nets, net) then last else RUNERR);
      Tokens(p, js, net, if Running(w.nets, net) then done + {id} else done) && Advanced(w.jobs, js, net)
  {
    if Outgoing(p.flows, id) == [] {
      LastIcon(p, w.jobs, net, done, id, RUNERR);
      MarkTokens(p, w.jobs, net, done, id, RUNERR);
      MarkTwice(w.jobs, id, ENDERR, RUNERR);
    } else if Running(w.nets, net) {
      CompletionCounts(p, w.jobs, w.nets, net, done, id, last);
    } else {
      OutNet(p, w.jobs, net, id);
      MarkTokens(p, w.jobs, net, done, id, RUNERR);
      MarkTwice(w.jobs, id, RUNERR, RUNERR);
    }
  }

  // ja_flow itself writes that status.
  lemma FinishWrites(p: Plan, w: World, net: NetId, id: JobId)
    requires Regular(p, w.jobs, net) && In(w.jobs, id, net) && Outgoing(p.flows, id) != []
    ensures var js := Complete(w.jobs, p.flows, p.links, w.nets, id, NORMAL);
      js == Mark(js, id, if Running(w.nets, net) then END else RUNERR)
  {
    OutNet(p, w.jobs, net, id);
  }

  lemma EndsShape(p: Plan, a: Jobs, b: Jobs, net: NetId)
    requires SameShape(a, b) && EndsAtEnd(p, a, net)
    ensures EndsAtEnd(p, b, net)
  {
  }

  function Subject(s: Step): JobId
    requires !s.NetChange?
  {
    if s.Launch? then s.start else s.id
  }

  predicate Owns(w: World, net: NetId, s: Step) { !s.NetChange? && In(w.jobs, Subject(s), net) }

  lemma OthersStep(p: Plan, w: World, net: NetId, s: Step)
    requires Regular(p, w.jobs, net) && Enabled(p, w, s) && !Owns(w, net, s)
    ensures KeptOrReset(w.jobs, Next(p, w, s).jobs, net) && Completed(w, net, s) == {}
  {
    NextShape(p, w, s);
    if Walks(w.jobs, s) {
      OthersComplete(p, w.jobs, w.nets, net, s.id, WalkKind(s));
    }
  }

  // The status of no icon goes back, except that a failed jobnet icon runs again.
  ghost predicate Moved(a: Jobs, b: Jobs, net: NetId, s: Step)
  {
    Advanced(a, b, net) || (Revives(s) && Has(a, s.id, RUNERR) && a[s.id].icon.JobnetIcon? && b == Mark(a, s.id, RUN))
  }

  // Every step keeps the count.
  lemma StepTokens(p: Plan, w: World, net: NetId, done: set<JobId>, s: Step)
    requires Tokens(p, w.jobs, net, done) && EndsAtEnd(p, w.jobs, net)
    requires Enabled(p, w, s) && Orderly(w, net, done, s)
    ensures var next := Next(p, w, s);
      && Tokens(p, next.jobs, net, DoneAfter(p, w, net, done, s)) && EndsAtEnd(p, next.jobs, net)
      && (Fresh(next.jobs, net) || Moved(w.jobs, next.jobs, net, s))
  {
    var js := Next(p, w, s).jobs;
    NextShape(p, w, s);
    EndsShape(p, w.jobs, js, net);
    if Owns(w, net, s) {
      OwnStep(p, w, net, done, s, Subject(s));
    } else {
      OthersStep(p, w, net, s);
      ResetTokens(p, w.jobs, js, net, done);
      assert done + {} == done;
    }
  }

  lemma OwnStep(p: Plan, w: World, net: NetId, done: set<JobId>, s: Step, id: JobId)
    requires Tokens(p, w.jobs, net, done) && EndsAtEnd(p, w.jobs, net)
    requires Enabled(p, w, s) && Orderly(w, net, done, s) && Owns(w, net, s) && id == Subject(s)
    ensures var js := Next(p, w, s).jobs;
      && Tokens(p, js, net, done + Completed(w, net, s)) && Moved(w.jobs, js, net, s) && !Fresh(js, net)
      && In(js, id, net) && (IconStep(s) ==> js == w.jobs || Left(js[id].status) < Left(w.jobs[id].status))
  {
    var js := Next(p, w, s).jobs;
    NextShape(p, w, s);
    assert done + {} == done;
    match s {
      case Launch(_, _) =>
        MarkTokens(p, w.jobs, net, done, id, READY);
        assert w.jobs[id].status == READY ==> js == w.jobs;
      case RunIcon(_) => MarkTokens(p, w.jobs, net, done, id, RUN);
      case Finish(_, _) => OwnFinish(p, w, net, done, id);
      case FinishEnd(_) => LastIcon(p, w.jobs, net, done, id, END);
      case StopIcon(_) => MarkTokens(p, w.jobs, net, done, id, ENDERR);
      case AbortIcon(_) => MarkTokens(p, w.jobs, net, done, id, ABORT);
      case FailIcon(_, iconStatus) => OwnFailure(p, w, net, done, id, iconStatus);
      case Resync(_, how) => OwnResync(p, w, net, done, id, how);
    }
    assert js[id].status != BEGIN;
  }

  lemma OwnFinish(p: Plan, w: World, net: NetId, done: set<JobId>, id: JobId)
    requires Tokens(p, w.jobs, net, done) && EndsAtEnd(p, w.jobs, net)
    requires In(w.jobs, id, net) && Open(id, w.jobs[id], done) && !w.jobs[id].icon.EndIcon?
    ensures var js := Complete(w.jobs, p.flows, p.links, w.nets, id, NORMAL);
      && Tokens(p, js, net, if Running(w.nets, net) then done + {id} else done) && Advanced(w.jobs, js, net)
      && js[id].status == if Running(w.nets, net) then END else RUNERR
  {
    FinishTokens(p, w, net, done, id, END);
    FinishWrites(p, w, net, id);
  }

  lemma OwnFailure(p: Plan, w: World, net: NetId, done: set<JobId>, id: JobId, iconStatus: int)
    requires Tokens(p, w.jobs, net, done) && EndsAtEnd(p, w.jobs, net)
    requires In(w.jobs, id, net) && Open(id, w.jobs[id], done)
    ensures var js := Failed(p, w, id, iconStatus);
      var more := if Running(w.nets, net) && FailGoesOn(w.jobs[id], iconStatus) then {id} else {};
      Tokens(p, js, net, done + more) && Advanced(w.jobs, js, net) && js[id].status == RUNERR
  {
    assert done + {} == done;
    if FailGoesOn(w.jobs[id], iconStatus) {
      FinishTokens(p, w, net, done, id, RUNERR);
    } else {
      MarkTokens(p, w.jobs, net, done, id, RUNERR);
    }
  }

  lemma OwnResync(p: Plan, w: World, net: NetId, done: set<JobId>, id: JobId, how: Again)
    requires Tokens(p, w.jobs, net, done) && EndsAtEnd(p, w.jobs, net)
    requires Enabled(p, w, Resync(id, how)) && In(w.jobs, id, net) && id !in done
    ensures var s := Resync(id, how); var js := Next(p, w, s).jobs;
      Tokens(p, js, net, done + Completed(w, net, s)) && Moved(w.jobs, js, net, s) && js[id].status != BEGIN
  {
    assert done + {} == done;
    assert Counted(p, id, w.jobs[id], done, 0);
    match how
    case Revive => MarkTokens(p, w.jobs, net, done, id, RUN);
    case Finished => OwnFinish(p, w, net, done, id);
    case FailAgain => OwnFailure(p, w, net, done, id, JOBNET_STATUS);
    case Stop => MarkTokens(p, w.jobs, net, done, id, ENDERR);
  }

  // The icons completed, since the last reset, before step n of a run.
  ghost function DoneAt(p: Plan, states: seq<World>, net: NetId, steps: seq<Step>, n: nat): set<JobId>
    requires IsRun(p, states, steps) && n <= |steps|
  {
    if n == 0 then {} else DoneAfter(p, states[n-1], net, DoneAt(p, states, net, steps, n - 1), steps[n-1])
  }

  ghost predicate OrderlyRun(p: Plan, states: seq<World>, net: NetId, steps: seq<Step>)
  {
    && IsRun(p, states, steps)
    && forall i :: 0 <= i < |steps| ==> Orderly(states[i], net, DoneAt(p, states, net, steps, i), steps[i])
  }

  // A jobnet that is orderly from a load or reset on.
  ghost predicate Started(p: Plan, states: seq<World>, net: NetId, steps: seq<Step>)
  {
    && OrderlyRun(p, states, net, steps)
    && Regular(p, states[0].jobs, net) && EndsAtEnd(p, states[0].jobs, net) && Fresh(states[0].jobs, net)
  }

  lemma FreshTokens(p: Plan, jobs: Jobs, net: NetId)
    requires Regular(p, jobs, net) && Fresh(jobs, net)
    ensures Tokens(p, jobs, net, {})
  {
    forall x: JobId ensures CountFrom(p.flows, x, {}) == 0 {
      CountNone(p.flows, x);
    }
  }

  // From a freshly loaded or reset jobnet, in every reachable state.
  lemma {:induction false} RunTokens(p: Plan, states: seq<World>, net: NetId, steps: seq<Step>, n: nat)
    requires Started(p, states, net, steps) && n <= |steps|
    ensures Tokens(p, states[n].jobs, net, DoneAt(p, states, net, steps, n)) && EndsAtEnd(p, states[n].jobs, net)
  {
    if n == 0 {
      FreshTokens(p, states[0].jobs, net);
    } else {
      RunTokens(p, states, net, steps, n - 1);
      StepTokens(p, states[n-1], net, DoneAt(p, states, net, steps, n - 1), steps[n-1]);
    }
  }

  // ---- what the invariant means --------------------------------------------------

  // No icon leaves BEGIN before all its predecessors are completed, and none
  // stays at BEGIN after.
  lemma StartsAfterPredecessors(p: Plan, jobs: Jobs, net: NetId, done: set<JobId>, id: JobId)
    requires Tokens(p, jobs, net, done) && In(jobs, id, net) && !jobs[id].icon.StartIcon?
    ensures jobs[id].status != BEGIN <==> forall f :: f in p.flows && f.end == id ==> f.start in done
    ensures jobs[id].status != BEGIN ==>
      forall f :: f in p.flows && f.end == id ==> jobs[f.start].status == END || jobs[f.start].status == RUNERR
  {
    CountBound(p.flows, id, done);
  }

  function Ended(jobs: Jobs, net: NetId): set<JobId> { set x | x in jobs && jobs[x].net == net && jobs[x].status == END }

  // When nothing failed, end_count is the number of incoming flows from END icons.
  lemma CountsEndedPredecessors(p: Plan, jobs: Jobs, net: NetId, done: set<JobId>, id: JobId)
    requires Tokens(p, jobs, net, done) && In(jobs, id, net) && !jobs[id].icon.StartIcon?
    requires forall x :: In(jobs, x, net) ==> jobs[x].status != RUNERR
    ensures jobs[id].endCount == CountFrom(p.flows, id, Ended(jobs, net))
  {
    assert done == Ended(jobs, net);
  }

  // The branch for an icon already started is never taken.
  lemma NeverAlreadyStarted(p: Plan, w: World, net: NetId, done: set<JobId>, id: JobId)
    requires Tokens(p, w.jobs, net, done) && EndsAtEnd(p, w.jobs, net)
    requires In(w.jobs, id, net) && Enabled(p, w, Finish(id, NORMAL)) && Running(w.nets, net)
    ensures CompletesSmoothly(w.jobs, p.flows, p.links, w.nets, id, NORMAL)
  {
    CompletionCounts(p, w.jobs, w.nets, net, done, id, END);
  }

  // ---- between two resets ----------------------------------------------------------

  ghost predicate NoReset(states: seq<World>, net: NetId, i: nat, j: nat)
    requires j < |states|
  {
    forall k :: i < k <= j ==> !Fresh(states[k].jobs, net)
  }

  lemma NthStep(p: Plan, states: seq<World>, net: NetId, steps: seq<Step>, n: nat)
    requires Started(p, states, net, steps) && n < |steps|
    ensures Fresh(states[n+1].jobs, net) || Moved(states[n].jobs, states[n+1].jobs, net, steps[n])
  {
    RunTokens(p, states, net, steps, n);
    StepTokens(p, states[n], net, DoneAt(p, states, net, steps, n), steps[n]);
  }

  // Running, being aborted and having failed are one stage: a failed jobnet icon
  // may run again.
  function Stage(s: Status): nat
  {
    match s
    case BEGIN => 0
    case READY => 1
    case RUN | ABORT | RUNERR => 2
    case _ => 3
  }

  // No icon goes back a stage, and an icon that is no jobnet icon not at all.
  ghost predicate Onward(a: Jobs, b: Jobs, net: NetId)
  {
    && SameShape(a, b)
    && (forall id :: In(a, id, net) ==> Stage(a[id].status) <= Stage(b[id].status))
    && (forall id :: In(a, id, net) && !a[id].icon.JobnetIcon? ==> Left(b[id].status) <= Left(a[id].status))
  }

  lemma MovedOnward(a: Jobs, b: Jobs, c: Jobs, net: NetId, s: Step)
    requires Onward(a, b, net) && Moved(b, c, net, s)
    ensures Onward(a, c, net)
  {
    MarkShape(b, if s.NetChange? then 0 else Subject(s), RUN);
    forall id | In(a, id, net)
      ensures Stage(a[id].status) <= Stage(c[id].status)
      ensures !a[id].icon.JobnetIcon? ==> Left(c[id].status) <= Left(a[id].status)
    {
      assert In(b, id, net);
      assert Stage(b[id].status) <= Stage(c[id].status);
    }
  }

  // Between two resets the status of an icon only advances.
  lemma {:induction false} StatusesAdvance(p: Plan, states: seq<World>, net: NetId, steps: seq<Step>, i: nat, j: nat)
    requires Started(p, states, net, steps) && i <= j <= |steps| && NoReset(states, net, i, j)
    ensures Onward(states[i].jobs, states[j].jobs, net)
  {
    if i < j {
      var n := j - 1;
      StatusesAdvance(p, states, net, steps, i, n);
      NthStep(p, states, net, steps, n);
      MovedOnward(states[i].jobs, states[n].jobs, states[j].jobs, net, steps[n]);
    }
  }

  // So no icon becomes READY twice.
  lemma NotReadyTwice(p: Plan, states: seq<World>, net: NetId, steps: seq<Step>, i: nat, k: nat, j: nat, id: JobId)
    requires Started(p, states, net, steps) && i <= k <= j <= |steps| && NoReset(states, net, i, j)
    requires In(states[i].jobs, id, net) && states[i].jobs[id].status == READY
    requires id in states[k].jobs && states[k].jobs[id].status != READY
    ensures id in states[j].jobs && states[j].jobs[id].status != READY
  {
    StatusesAdvance(p, states, net, steps, i, k);
    StatusesAdvance(p, states, net, steps, k, j);
    assert In(states[k].jobs, id, net);
  }
}
