// Two running icons of one jobnet may be completed in either order.
module Confluence {
  import opened Common
  import opened FlowTables

  // An arrival that takes no error branch.
  function Step(jobs: Jobs, links: Links, dst: JobId): Option<Jobs>
  {
    match Arrive(jobs, links, dst)
    case Refused => None
    case Absorbed => Some(jobs)
    case Arrived(js) => Some(js)
  }

  function Then(o: Option<Jobs>, links: Links, dst: JobId): Option<Jobs>
  {
    if o.None? then None else Step(o.value, links, dst)
  }

  function Steps(jobs: Jobs, links: Links, dsts: seq<JobId>): Option<Jobs>
  {
    if dsts == [] then Some(jobs) else Then(Steps(jobs, links, dsts[..|dsts|-1]), links, dsts[|dsts|-1])
  }

  // Flows stay inside the jobnet, and no jobnet icon among their ends links it.
  ghost predicate Inside(jobs: Jobs, links: Links, net: NetId, dst: JobId)
  {
    dst in jobs ==> jobs[dst].net == net && (jobs[dst].icon.JobnetIcon? && dst in links ==> links[dst] != net)
  }

  ghost predicate AllInside(jobs: Jobs, links: Links, net: NetId, dsts: seq<JobId>)
  {
    forall i :: 0 <= i < |dsts| ==> Inside(jobs, links, net, dsts[i])
  }

  lemma StepShape(jobs: Jobs, links: Links, dst: JobId)
    ensures Step(jobs, links, dst).Some? ==> SameShape(jobs, Step(jobs, links, dst).value)
  {
  }

  lemma StepsShape(jobs: Jobs, links: Links, dsts: seq<JobId>)
    ensures Steps(jobs, links, dsts).Some? ==> SameShape(jobs, Steps(jobs, links, dsts).value)
  {
  }

  // An arrival inside the jobnet changes no other icon of the jobnet.
  lemma StepFrame(jobs: Jobs, links: Links, net: NetId, dst: JobId, other: JobId)
    requires Inside(jobs, links, net, dst) && other in jobs && jobs[other].net == net && other != dst
    ensures Step(jobs, links, dst).Some? ==> other in Step(jobs, links, dst).value && Step(jobs, links, dst).value[other] == jobs[other]
  {
  }

  // The row of id after an arrival at an icon whose row is at.
  function RowAfter(row: Job, id: JobId, at: Job, links: Links, dst: JobId): Job
  {
    var v := Judge(at);
    if !v.Take? then row
    else if id == dst then row.(status := v.status, endCount := v.endCount)
    else if at.icon.JobnetIcon? && v.status == READY && dst in links && row.net == links[dst]
    then row.(status := BEGIN, endCount := 0)
    else row
  }

  predicate Refuses(at: Job, links: Links, dst: JobId)
  {
    var v := Judge(at);
    v.Refuse? || (v.Take? && v.status == READY && at.icon.JobnetIcon? && dst !in links)
  }

  lemma StepRows(jobs: Jobs, links: Links, dst: JobId)
    requires dst in jobs
    ensures Step(jobs, links, dst).None? <==> Refuses(jobs[dst], links, dst)
    ensures Step(jobs, links, dst).Some? ==>
      var js := Step(jobs, links, dst).value;
      js.Keys == jobs.Keys && forall id :: id in jobs ==> js[id] == RowAfter(jobs[id], id, jobs[dst], links, dst)
  {
  }

  lemma Swap(jobs: Jobs, links: Links, net: NetId, s: JobId, t: JobId)
    requires Inside(jobs, links, net, s) && Inside(jobs, links, net, t)
    ensures Then(Step(jobs, links, s), links, t) == Then(Step(jobs, links, t), links, s)
  {
    StepShape(jobs, links, s);
    StepShape(jobs, links, t);
    if s in jobs && t in jobs && s != t {
      StepRows(jobs, links, s);
      StepRows(jobs, links, t);
      StepFrame(jobs, links, net, s, t);
      StepFrame(jobs, links, net, t, s);
      var js, jt := Step(jobs, links, s), Step(jobs, links, t);
      if js.Some? && jt.Some? {
        StepRows(js.value, links, t);
        StepRows(jt.value, links, s);
        SameRows(Step(js.value, links, t).value, Step(jt.value, links, s).value);
      }
    }
  }

  lemma SameRows(a: Jobs, b: Jobs)
    requires a.Keys == b.Keys && forall id :: id in a ==> a[id] == b[id]
    ensures a == b
  {
  }

  lemma StepsAppend(jobs: Jobs, links: Links, a: seq<JobId>, b: seq<JobId>)
    ensures Steps(jobs, links, a + b) ==
      if Steps(jobs, links, a).None? then None else Steps(Steps(jobs, links, a).value, links, b)
  {
    if b == [] {
      assert a + b == a;
    } else {
      assert (a + b)[..|a + b|-1] == a + b[..|b|-1];
      StepsAppend(jobs, links, a, b[..|b|-1]);
    }
  }

  lemma InsideShape(a: Jobs, b: Jobs, links: Links, net: NetId, dsts: seq<JobId>)
    requires SameShape(a, b) && AllInside(a, links, net, dsts)
    ensures AllInside(b, links, net, dsts)
  {
  }

  // One arrival may move from before a list to after it.
  lemma {:induction false} MoveBack(jobs: Jobs, links: Links, net: NetId, t: JobId, a: seq<JobId>)
    requires Inside(jobs, links, net, t) && AllInside(jobs, links, net, a)
    ensures Steps(jobs, links, [t] + a) == Steps(jobs, links, a + [t])
  {
    if a == [] {
      assert [t] + a == a + [t];
    } else {
      var front, x := a[..|a|-1], a[|a|-1];
      MoveBack(jobs, links, net, t, front);
      assert ([t] + a)[..|a|] == [t] + front;
      assert (a + [t])[..|a|] == a && (front + [t])[..|front|] == front;
      var s := Steps(jobs, links, front);
      if s.Some? {
        StepsShape(jobs, links, front);
        InsideShape(jobs, s.value, links, net, a);
        assert Inside(s.value, links, net, t) && Inside(s.value, links, net, a[|a|-1]);
        Swap(s.value, links, net, t, x);
      }
    }
  }

  lemma {:induction false} Commute(jobs: Jobs, links: Links, net: NetId, a: seq<JobId>, b: seq<JobId>)
    requires AllInside(jobs, links, net, a) && AllInside(jobs, links, net, b)
    ensures Steps(jobs, links, a + b) == Steps(jobs, links, b + a)
  {
    if b == [] {
      assert a + b == b + a;
    } else {
      var front, x := b[..|b|-1], b[|b|-1];
      Commute(jobs, links, net, a, front);
      assert (a + b)[..|a + b|-1] == a + front;
      assert front + (a + [x]) == (front + a) + [x];
      assert (front + a + [x])[..|front + a|] == front + a;
      StepsAppend(jobs, links, front, a + [x]);
      StepsAppend(jobs, links, front, [x] + a);
      assert front + ([x] + a) == b + a;
      var s := Steps(jobs, links, front);
      if s.Some? {
        StepsShape(jobs, links, front);
        InsideShape(jobs, s.value, links, net, a);
        InsideShape(jobs, s.value, links, net, b);
        MoveBack(s.value, links, net, x, a);
      }
    }
  }

  lemma SmoothSteps(jobs: Jobs, links: Links, src: JobId, dsts: seq<JobId>)
    ensures Smooth(jobs, links, src, dsts) <==> Steps(jobs, links, dsts).Some?
    ensures Smooth(jobs, links, src, dsts) ==> Steps(jobs, links, dsts) == Some(DeliverAll(jobs, links, src, dsts))
  {
    if dsts != [] {
      SmoothSteps(jobs, links, src, dsts[..|dsts|-1]);
    }
  }

  // A running icon that flows can reach without an error is in test mode, and
  // the flows leave it alone.
  lemma {:induction false} RunningUntouched(jobs: Jobs, links: Links, net: NetId, dsts: seq<JobId>, a: JobId)
    requires AllInside(jobs, links, net, dsts) && Steps(jobs, links, dsts).Some?
    requires a in jobs && jobs[a].net == net && jobs[a].status == RUN
    ensures a in Steps(jobs, links, dsts).value && Steps(jobs, links, dsts).value[a] == jobs[a]
    ensures a in dsts ==> jobs[a].test
  {
    if dsts != [] {
      var front, x := dsts[..|dsts|-1], dsts[|dsts|-1];
      RunningUntouched(jobs, links, net, front, a);
      var s := Steps(jobs, links, front).value;
      StepsShape(jobs, links, front);
      InsideShape(jobs, s, links, net, dsts);
      if x != a {
        StepFrame(s, links, net, x, a);
      }
    }
  }

  // Ending a running icon commutes with flows that take no error branch.
  lemma {:induction false} MarkCommutes(jobs: Jobs, links: Links, net: NetId, dsts: seq<JobId>, a: JobId)
    requires AllInside(jobs, links, net, dsts) && Steps(jobs, links, dsts).Some?
    requires a in jobs && jobs[a].net == net && jobs[a].status == RUN
    ensures Steps(Mark(jobs, a, END), links, dsts) == Some(Mark(Steps(jobs, links, dsts).value, a, END))
  {
    if dsts != [] {
      var front, x := dsts[..|dsts|-1], dsts[|dsts|-1];
      MarkCommutes(jobs, links, net, front, a);
      RunningUntouched(jobs, links, net, front, a);
      RunningUntouched(jobs, links, net, dsts, a);
      var s := Steps(jobs, links, front).value;
      StepsShape(jobs, links, front);
      InsideShape(jobs, s, links, net, dsts);
      MarkStep(s, links, net, x, a);
    }
  }

  lemma MarkStep(jobs: Jobs, links: Links, net: NetId, x: JobId, a: JobId)
    requires Inside(jobs, links, net, x) && Step(jobs, links, x).Some?
    requires a in jobs && jobs[a].net == net && jobs[a].status == RUN
    ensures Step(Mark(jobs, a, END), links, x) == Some(Mark(Step(jobs, links, x).value, a, END))
  {
    if x != a {
      var marked := Mark(jobs, a, END);
      assert marked[x] == jobs[x];
      StepRows(jobs, links, x);
      StepRows(marked, links, x);
      SameRows(Step(marked, links, x).value, Mark(Step(jobs, links, x).value, a, END));
    }
  }

  lemma CompleteSteps(jobs: Jobs, flows: seq<Flow>, links: Links, nets: Nets, src: JobId, kind: FlowKind)
    requires CompletesSmoothly(jobs, flows, links, nets, src, kind)
    ensures Steps(jobs, links, Targets(Outgoing(flows, src), kind)).Some?
    ensures Complete(jobs, flows, links, nets, src, kind)
         == Mark(Steps(jobs, links, Targets(Outgoing(flows, src), kind)).value, src, END)
  {
    SmoothSteps(jobs, links, src, Targets(Outgoing(flows, src), kind));
  }

  // In one order: both lists of flows from the common start, then both ends.
  lemma InOrder(jobs: Jobs, flows: seq<Flow>, links: Links, nets: Nets, net: NetId,
                a: JobId, aKind: FlowKind, b: JobId, bKind: FlowKind)
    requires a != b && a in jobs && jobs[a].net == net && jobs[a].status == RUN
    requires AllInside(jobs, links, net, Targets(Outgoing(flows, a), aKind))
    requires AllInside(jobs, links, net, Targets(Outgoing(flows, b), bKind))
    requires CompletesSmoothly(jobs, flows, links, nets, a, aKind)
    requires CompletesSmoothly(Complete(jobs, flows, links, nets, a, aKind), flows, links, nets, b, bKind)
    requires Steps(jobs, links, Targets(Outgoing(flows, a), aKind) + Targets(Outgoing(flows, b), bKind)).Some?
    ensures Complete(Complete(jobs, flows, links, nets, a, aKind), flows, links, nets, b, bKind)
         == Mark(Mark(Steps(jobs, links, Targets(Outgoing(flows, a), aKind) + Targets(Outgoing(flows, b), bKind)).value, a, END), b, END)
  {
    var as_, bs := Targets(Outgoing(flows, a), aKind), Targets(Outgoing(flows, b), bKind);
    CompleteSteps(jobs, flows, links, nets, a, aKind);
    var mid := Complete(jobs, flows, links, nets, a, aKind);
    CompleteSteps(mid, flows, links, nets, b, bKind);
    var s := Steps(jobs, links, as_).value;
    RunningUntouched(jobs, links, net, as_, a);
    StepsShape(jobs, links, as_);
    InsideShape(jobs, s, links, net, bs);
    StepsAppend(jobs, links, as_, bs);
    MarkCommutes(s, links, net, bs, a);
  }

  // Flows that take no error branch once a has ended take none while it runs,
  // unless they lead to a itself outside test mode.
  lemma {:induction false} SmoothWhileRunning(jobs: Jobs, links: Links, net: NetId, dsts: seq<JobId>, a: JobId)
    requires AllInside(jobs, links, net, dsts) && Steps(Mark(jobs, a, END), links, dsts).Some?
    requires a in jobs && jobs[a].net == net && jobs[a].status == RUN && (a in dsts ==> jobs[a].test)
    ensures Steps(jobs, links, dsts).Some?
  {
    if dsts != [] {
      var front, x := dsts[..|dsts|-1], dsts[|dsts|-1];
      SmoothWhileRunning(jobs, links, net, front, a);
      MarkCommutes(jobs, links, net, front, a);
      RunningUntouched(jobs, links, net, front, a);
      StepsShape(jobs, links, front);
      var s := Steps(jobs, links, front).value;
      assert x in dsts;
      assert x != a && x in s ==> Mark(s, a, END)[x] == s[x];
    }
  }

  // After a's flows, b's still take no error branch.
  lemma BothSmooth(jobs: Jobs, flows: seq<Flow>, links: Links, nets: Nets, net: NetId,
                   a: JobId, aKind: FlowKind, b: JobId, bKind: FlowKind)
    requires a in jobs && jobs[a].net == net && jobs[a].status == RUN
    requires AllInside(jobs, links, net, Targets(Outgoing(flows, a), aKind))
    requires AllInside(jobs, links, net, Targets(Outgoing(flows, b), bKind))
    requires CompletesSmoothly(jobs, flows, links, nets, a, aKind)
    requires CompletesSmoothly(Complete(jobs, flows, links, nets, a, aKind), flows, links, nets, b, bKind)
    requires CompletesSmoothly(jobs, flows, links, nets, b, bKind)
    ensures Steps(jobs, links, Targets(Outgoing(flows, a), aKind) + Targets(Outgoing(flows, b), bKind)).Some?
  {
    var as_, bs := Targets(Outgoing(flows, a), aKind), Targets(Outgoing(flows, b), bKind);
    CompleteSteps(jobs, flows, links, nets, a, aKind);
    CompleteSteps(jobs, flows, links, nets, b, bKind);
    CompleteSteps(Complete(jobs, flows, links, nets, a, aKind), flows, links, nets, b, bKind);
    var s := Steps(jobs, links, as_).value;
    RunningUntouched(jobs, links, net, as_, a);
    RunningUntouched(jobs, links, net, bs, a);
    StepsShape(jobs, links, as_);
    InsideShape(jobs, s, links, net, bs);
    SmoothWhileRunning(s, links, net, bs, a);
    StepsAppend(jobs, links, as_, bs);
  }

  // Completing two running icons of one jobnet gives the same icons in either
  // order, resets of linked jobnets included, if neither order takes an error branch.
  lemma Confluent(jobs: Jobs, flows: seq<Flow>, links: Links, nets: Nets, net: NetId,
                  a: JobId, aKind: FlowKind, b: JobId, bKind: FlowKind)
    requires a != b && a in jobs && jobs[a].net == net && jobs[a].status == RUN
    requires b in jobs && jobs[b].net == net && jobs[b].status == RUN
    requires AllInside(jobs, links, net, Targets(Outgoing(flows, a), aKind))
    requires AllInside(jobs, links, net, Targets(Outgoing(flows, b), bKind))
    requires CompletesSmoothly(jobs, flows, links, nets, a, aKind)
    requires CompletesSmoothly(Complete(jobs, flows, links, nets, a, aKind), flows, links, nets, b, bKind)
    requires CompletesSmoothly(jobs, flows, links, nets, b, bKind)
    requires CompletesSmoothly(Complete(jobs, flows, links, nets, b, bKind), flows, links, nets, a, aKind)
    ensures Complete(Complete(jobs, flows, links, nets, a, aKind), flows, links, nets, b, bKind)
         == Complete(Complete(jobs, flows, links, nets, b, bKind), flows, links, nets, a, aKind)
  {
    var as_, bs := Targets(Outgoing(flows, a), aKind), Targets(Outgoing(flows, b), bKind);
    BothSmooth(jobs, flows, links, nets, net, a, aKind, b, bKind);
    BothSmooth(jobs, flows, links, nets, net, b, bKind, a, aKind);
    InOrder(jobs, flows, links, nets, net, a, aKind, b, bKind);
    InOrder(jobs, flows, links, nets, net, b, bKind, a, aKind);
    Commute(jobs, links, net, as_, bs);
    MarksCommute(Steps(jobs, links, as_ + bs).value, a, b);
  }

  lemma MarksCommute(jobs: Jobs, a: JobId, b: JobId)
    requires a != b
    ensures Mark(Mark(jobs, a, END), b, END) == Mark(Mark(jobs, b, END), a, END)
  {
  }
}
