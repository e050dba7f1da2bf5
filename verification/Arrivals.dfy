// What the flows of a completed icon do to the icons they enter, told by the
// statuses, counts and kinds of the rows (src/jalibs/jaflow.c).
module Arrivals {
  import opened Common
  import opened FlowTables

  // ---- which flows are taken -------------------------------------------------------

  // A completion of src of that kind takes the flow into d.
  predicate Taken(f: Flow, src: JobId, d: JobId, kind: FlowKind)
  {
    f.start == src && f.end == d && (kind == NORMAL || f.kind == kind)
  }

  // The rows of the flow table that a completion of src of that kind takes into d.
  ghost function Entries(flows: seq<Flow>, src: JobId, d: JobId, kind: FlowKind): set<nat>
  {
    set i: nat | i < |flows| && Taken(flows[i], src, d, kind)
  }

  function Occurs(s: seq<JobId>, x: JobId): nat
  {
    if s == [] then 0 else Occurs(s[..|s|-1], x) + if s[|s|-1] == x then 1 else 0
  }

  lemma OccursOne(a: seq<JobId>, y: JobId, x: JobId)
    ensures Occurs(a + [y], x) == Occurs(a, x) + if y == x then 1 else 0
  {
    assert (a + [y])[..|a|] == a;
  }

  lemma {:induction false} OccursIn(dsts: seq<JobId>, d: JobId)
    ensures d in dsts <==> Occurs(dsts, d) >= 1
  {
    if dsts != [] {
      OccursIn(dsts[..|dsts|-1], d);
    }
  }

  lemma OccursAppend(a: seq<JobId>, b: seq<JobId>, d: JobId)
    requires |b| <= 1
    ensures Occurs(a + b, d) == Occurs(a, d) + if b == [d] then 1 else 0
  {
    if b == [] {
      assert a + b == a;
    } else {
      OccursOne(a, b[0], d);
    }
  }

  lemma EntriesFront(flows: seq<Flow>, n: nat, src: JobId, d: JobId, kind: FlowKind)
    requires n < |flows|
    ensures Entries(flows[..n+1], src, d, kind)
         == Entries(flows[..n], src, d, kind) + if Taken(flows[n], src, d, kind) then {n} else {}
  {
    forall i: nat ensures i in Entries(flows[..n], src, d, kind) <==> i < n && Taken(flows[i], src, d, kind) {
    }
    forall i: nat ensures i in Entries(flows[..n+1], src, d, kind) <==> i <= n && Taken(flows[i], src, d, kind) {
    }
  }

  lemma EntriesLast(flows: seq<Flow>, src: JobId, d: JobId, kind: FlowKind)
    requires flows != []
    ensures |Entries(flows, src, d, kind)|
         == |Entries(flows[..|flows|-1], src, d, kind)| + if Taken(flows[|flows|-1], src, d, kind) then 1 else 0
  {
    var n: nat := |flows| - 1;
    EntriesFront(flows, n, src, d, kind);
    assert flows[..n+1] == flows && n !in Entries(flows[..n], src, d, kind);
  }

  lemma TargetsLast(flows: seq<Flow>, src: JobId, d: JobId, kind: FlowKind)
    requires flows != []
    ensures Occurs(Targets(Outgoing(flows, src), kind), d)
         == Occurs(Targets(Outgoing(flows[..|flows|-1], src), kind), d) + if Taken(flows[|flows|-1], src, d, kind) then 1 else 0
  {
    var front, last := flows[..|flows|-1], flows[|flows|-1];
    OutgoingNext(flows, src);
    if last.start == src {
      TargetsAppend(Outgoing(front, src), last, kind);
      OccursAppend(Targets(Outgoing(front, src), kind), if Follows(kind, last) then [last.end] else [], d);
    }
  }

  // A walk enters an icon as often as there are such rows.
  lemma {:induction false} EntriesCount(flows: seq<Flow>, src: JobId, d: JobId, kind: FlowKind)
    ensures Occurs(Targets(Outgoing(flows, src), kind), d) == |Entries(flows, src, d, kind)|
  {
    if flows == [] {
      assert Entries(flows, src, d, kind) == {};
    } else {
      EntriesCount(flows[..|flows|-1], src, d, kind);
      EntriesLast(flows, src, d, kind);
      TargetsLast(flows, src, d, kind);
    }
  }

  // ---- an icon that flows enter k times ------------------------------------------

  function Hit(j: Job, k: nat): Job
  {
    if k == 0 then j
    else
      var before := Hit(j, k - 1);
      var v := Judge(before);
      if v.Take? then before.(status := v.status, endCount := v.endCount) else before
  }

  lemma {:induction false} HitRefused(j: Job, k: nat)
    requires Judge(j).Refuse?
    ensures Hit(j, k) == j
  {
    if k > 0 {
      HitRefused(j, k - 1);
    }
  }

  // A flow into the icon counts for it.
  predicate Counts(j: Job)
  {
    j.status == BEGIN || ((j.status == END || j.status == RUNERR) && !j.test && !j.icon.EndIcon?)
  }

  // How many more have to come: one for the end of an IF and for a loop, the rest
  // of the boot count for other icons.
  function Missing(j: Job, endCount: int): nat
  {
    if j.icon.IfEndIcon? || j.icon.LIcon? || j.bootCount <= endCount then 1 else j.bootCount - endCount
  }

  // r is the icon j after n flows: untouched if they do not count; otherwise
  // counted, from nothing if it had ended or failed, until none is missing.
  predicate AfterFlows(j: Job, n: nat, r: Job)
  {
    var endCount := if j.status == BEGIN then j.endCount else 0;
    var missing := Missing(j, endCount);
    r == if n == 0 || !Counts(j) then j
         else if n < missing then j.(status := BEGIN, endCount := endCount + n)
         else j.(status := READY, endCount := endCount + missing)
  }

  lemma {:induction false} HitIs(j: Job, n: nat)
    ensures AfterFlows(j, n, Hit(j, n))
  {
    if n > 0 {
      HitIs(j, n - 1);
    }
  }

  // ---- the rows after a walk -----------------------------------------------------------

  // No icon entered links the jobnet of d, and d, if entered, has its own link.
  predicate Unreset(jobs: Jobs, links: Links, dsts: seq<JobId>, d: JobId)
  {
    d in jobs && forall x :: x in dsts && x in jobs && jobs[x].icon.JobnetIcon? ==>
      (x in links ==> links[x] != jobs[d].net) && (x == d ==> x in links)
  }

  lemma DeliverRow(jobs: Jobs, links: Links, src: JobId, dst: JobId, d: JobId)
    requires d in jobs && d != src && Unreset(jobs, links, [dst], d)
    ensures var js := Deliver(jobs, links, src, dst);
      SameShape(jobs, js) && js[d] == if dst == d then Hit(jobs[d], 1) else jobs[d]
  {
    DeliverShape(jobs, links, src, dst);
    assert dst in [dst];
    assert Hit(jobs[d], 0) == jobs[d];
  }

  lemma UnresetParts(jobs: Jobs, js: Jobs, links: Links, dsts: seq<JobId>, d: JobId)
    requires dsts != [] && Unreset(jobs, links, dsts, d) && SameShape(jobs, js)
    ensures Unreset(jobs, links, dsts[..|dsts|-1], d) && Unreset(js, links, [dsts[|dsts|-1]], d)
  {
    assert forall x :: x in dsts[..|dsts|-1] ==> x in dsts;
  }

  lemma {:induction false} WalkRow(jobs: Jobs, links: Links, src: JobId, dsts: seq<JobId>, d: JobId)
    requires d != src && Unreset(jobs, links, dsts, d)
    ensures var js := DeliverAll(jobs, links, src, dsts); SameShape(jobs, js) && js[d] == Hit(jobs[d], Occurs(dsts, d))
  {
    if dsts != [] {
      var front, dst := dsts[..|dsts|-1], dsts[|dsts|-1];
      var js := DeliverAll(jobs, links, src, front);
      DeliverAllShape(jobs, links, src, front);
      UnresetParts(jobs, js, links, dsts, d);
      WalkRow(jobs, links, src, front, d);
      DeliverRow(js, links, src, dst, d);
    }
  }

  // ---- the rows after a completion -----------------------------------------------------

  // All jobnets of the icon's flows run, and it has one.
  ghost predicate GoesOn(flows: seq<Flow>, nets: Nets, src: JobId)
  {
    && (exists f :: f in flows && f.start == src)
    && forall f :: f in flows && f.start == src ==> f.net in nets && (nets[f.net] == NET_RUN || nets[f.net] == NET_RUNERR)
  }

  // The flows taken reset no jobnet with d in it.
  ghost predicate Spares(jobs: Jobs, flows: seq<Flow>, links: Links, src: JobId, kind: FlowKind, d: JobId)
  {
    d in jobs && forall f :: f in flows && f.start == src && (kind == NORMAL || f.kind == kind)
                             && f.end in jobs && jobs[f.end].icon.JobnetIcon? ==>
      (f.end in links ==> links[f.end] != jobs[d].net) && (f.end == d ==> d in links)
  }

  lemma {:induction false} OutgoingIn(flows: seq<Flow>, src: JobId)
    ensures forall f :: f in Outgoing(flows, src) <==> f in flows && f.start == src
  {
    if flows != [] {
      OutgoingIn(flows[..|flows|-1], src);
    }
  }

  lemma TargetTaken(flows: seq<Flow>, src: JobId, kind: FlowKind, x: JobId)
    requires x in Targets(Outgoing(flows, src), kind)
    ensures exists f :: f in flows && f.start == src && f.end == x && (kind == NORMAL || f.kind == kind)
  {
    EntriesCount(flows, src, x, kind);
    OccursIn(Targets(Outgoing(flows, src), kind), x);
    var i :| i in Entries(flows, src, x, kind);
    assert flows[i] in flows;
  }

  lemma SparesUnreset(jobs: Jobs, flows: seq<Flow>, links: Links, src: JobId, kind: FlowKind, d: JobId)
    requires Spares(jobs, flows, links, src, kind, d)
    ensures Unreset(jobs, links, Targets(Outgoing(flows, src), kind), d)
  {
    var dsts := Targets(Outgoing(flows, src), kind);
    forall x | x in dsts && x in jobs && jobs[x].icon.JobnetIcon?
      ensures (x in links ==> links[x] != jobs[d].net) && (x == d ==> x in links)
    {
      TargetTaken(flows, src, kind, x);
    }
  }

  // A completion does to every other icon what the flows it takes into it do.
  lemma CompletedRow(jobs: Jobs, flows: seq<Flow>, links: Links, nets: Nets, src: JobId, kind: FlowKind, d: JobId)
    requires GoesOn(flows, nets, src) && d != src && Spares(jobs, flows, links, src, kind, d)
    ensures var js := Complete(jobs, flows, links, nets, src, kind);
      d in js && AfterFlows(jobs[d], |Entries(flows, src, d, kind)|, js[d])
  {
    var dsts := Targets(Outgoing(flows, src), kind);
    OutgoingIn(flows, src);
    assert Outgoing(flows, src) != [] && Outgoing(flows, src)[0] in Outgoing(flows, src);
    SparesUnreset(jobs, flows, links, src, kind, d);
    WalkRow(jobs, links, src, dsts, d);
    EntriesCount(flows, src, d, kind);
    HitIs(jobs[d], |Entries(flows, src, d, kind)|);
  }
}
