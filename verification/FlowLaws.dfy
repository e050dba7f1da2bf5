// What the completion of an icon leaves behind on the icons, its own status above
// all, and that the steps of Runs are the operations of the engine.
module FlowLaws {
  import opened Common
  import opened FlowTables
  import opened Arrivals
  import opened ValueTables
  import opened FlowOperations
  import Runs

  lemma EndErrJobs(db: Db, id: JobId, msgFlag: int)
    ensures EndErrSet(db, id, msgFlag).jobs == Mark(db.jobs, id, ENDERR) && EndErrSet(db, id, msgFlag).links == db.links
  {
  }

  lemma SettledJobs(db: Db, src: JobId, dst: JobId, a: Arrival)
    ensures Settled(db, src, dst, a).jobs == Settle(db.jobs, src, a) && Settled(db, src, dst, a).links == db.links
  {
    EndErrJobs(Told(db, src), src, 1);
  }

  lemma {:induction false} PassedAllJobs(db: Db, src: JobId, dsts: seq<JobId>)
    ensures PassedAll(db, src, dsts).jobs == DeliverAll(db.jobs, db.links, src, dsts)
    ensures PassedAll(db, src, dsts).links == db.links
  {
    if dsts != [] {
      PassedAllJobs(db, src, dsts[..|dsts|-1]);
      var before, dst := PassedAll(db, src, dsts[..|dsts|-1]), dsts[|dsts|-1];
      SettledJobs(before, src, dst, Arrive(before.jobs, before.links, dst));
    }
  }

  lemma WalkedJobs(db: Db, id: JobId, kind: FlowKind, msgFlag: int)
    requires Outgoing(db.flows, id) != [] && Running(db.nets, Outgoing(db.flows, id)[0].net)
    ensures var walked := DeliverAll(db.jobs, db.links, id, Targets(Outgoing(db.flows, id), kind));
      Flowed(db, id, kind, msgFlag).jobs == if msgFlag == 0 then walked else Mark(walked, id, END)
  {
    PassedAllJobs(CleanedAfter(db, id), id, Targets(Outgoing(db.flows, id), kind));
  }

  lemma UnwalkedJobs(db: Db, id: JobId, kind: FlowKind, msgFlag: int)
    requires Outgoing(db.flows, id) == [] || !Running(db.nets, Outgoing(db.flows, id)[0].net)
    ensures Flowed(db, id, kind, msgFlag).jobs == Mark(db.jobs, id, if Outgoing(db.flows, id) == [] then ENDERR else RUNERR)
  {
  }

  // The engine's effect on the icons.
  lemma FlowedJobs(db: Db, id: JobId, kind: FlowKind, msgFlag: int)
    ensures msgFlag != 0 ==> Flowed(db, id, kind, msgFlag).jobs == Complete(db.jobs, db.flows, db.links, db.nets, id, kind)
    ensures Mark(Flowed(db, id, kind, msgFlag).jobs, id, END) == Mark(Complete(db.jobs, db.flows, db.links, db.nets, id, kind), id, END)
  {
    var out := Outgoing(db.flows, id);
    if out != [] && Running(db.nets, out[0].net) {
      WalkedJobs(db, id, kind, msgFlag);
      MarkTwice(DeliverAll(db.jobs, db.links, id, Targets(out, kind)), id, END, END);
    } else {
      UnwalkedJobs(db, id, kind, msgFlag);
    }
  }

  // ---- the other icons ----------------------------------------------------------

  ghost predicate Stands(flows: seq<Flow>, nets: Nets, src: JobId)
  {
    && (exists f :: f in flows && f.start == src)
    && forall f :: f in flows && f.start == src ==> !(f.net in nets && (nets[f.net] == NET_RUN || nets[f.net] == NET_RUNERR))
  }

  // b is a after a completion of src that goes on: the flows of that kind are
  // counted for the icons they enter, and no others are.
  ghost predicate WalkedOn(a: Db, b: Db, src: JobId, kind: FlowKind)
  {
    forall d :: d != src && Spares(a.jobs, a.flows, a.links, src, kind, d) ==>
      d in b.jobs && AfterFlows(a.jobs[d], |Entries(a.flows, src, d, kind)|, b.jobs[d])
  }

  // Only the icons such flows enter get before-rows.
  ghost predicate HandedOn(a: Db, b: Db, src: JobId, kind: FlowKind)
  {
    forall d :: Entries(a.flows, src, d, kind) == {} ==> Select(b.before.rows, d) == Select(a.before.rows, d)
  }

  ghost predicate OthersStay(a: Db, b: Db, src: JobId)
  {
    && b.before == a.before && b.jobs.Keys == a.jobs.Keys
    && forall d :: d in a.jobs && d != src ==> b.jobs[d] == a.jobs[d]
  }

  lemma InsertAllElsewhere(log: Log, dst: JobId, rows: seq<Row>, d: JobId)
    requires d != dst
    ensures Select(InsertAll(log, dst, rows).rows, d) == Select(log.rows, d)
  {
    if rows != [] {
      var front, last := InsertAll(log, dst, rows[..|rows|-1]), rows[|rows|-1];
      InsertAllElsewhere(log, dst, rows[..|rows|-1], d);
      SelectLast(front.rows, Row(front.next, dst, last.name, last.value), d);
    }
  }

  lemma PassedElsewhere(db: Db, src: JobId, dst: JobId, d: JobId)
    requires d != dst
    ensures Select(Passed(db, src, dst).before.rows, d) == Select(db.before.rows, d)
  {
    InsertAllElsewhere(db.before, dst, Select(db.after.rows, src), d);
    match Arrive(db.jobs, db.links, dst)
    case Refused => assert EndErrSet(Told(db, src), src, 1).before == db.before;
    case _ =>
  }

  lemma {:induction false} PassedAllElsewhere(db: Db, src: JobId, dsts: seq<JobId>, d: JobId)
    requires d !in dsts
    ensures Select(PassedAll(db, src, dsts).before.rows, d) == Select(db.before.rows, d)
  {
    if dsts != [] {
      assert dsts[|dsts|-1] in dsts;
      PassedAllElsewhere(db, src, dsts[..|dsts|-1], d);
      PassedElsewhere(PassedAll(db, src, dsts[..|dsts|-1]), src, dsts[|dsts|-1], d);
    }
  }

  lemma FlowedBefore(db: Db, src: JobId, kind: FlowKind, msgFlag: int)
    ensures Flowed(db, src, kind, msgFlag).before ==
      if Outgoing(db.flows, src) != [] && Running(db.nets, Outgoing(db.flows, src)[0].net)
      then PassedAll(CleanedAfter(db, src), src, Targets(Outgoing(db.flows, src), kind)).before
      else db.before
  {
  }

  lemma FlowedHands(db: Db, src: JobId, kind: FlowKind, msgFlag: int)
    ensures HandedOn(db, Flowed(db, src, kind, msgFlag), src, kind)
  {
    var dsts := Targets(Outgoing(db.flows, src), kind);
    FlowedBefore(db, src, kind, msgFlag);
    forall d | Entries(db.flows, src, d, kind) == {}
      ensures Select(Flowed(db, src, kind, msgFlag).before.rows, d) == Select(db.before.rows, d)
    {
      EntriesCount(db.flows, src, d, kind);
      OccursIn(dsts, d);
      PassedAllElsewhere(CleanedAfter(db, src), src, dsts, d);
    }
  }

  lemma FlowedWalks(db: Db, src: JobId, kind: FlowKind, msgFlag: int)
    requires GoesOn(db.flows, db.nets, src)
    ensures WalkedOn(db, Flowed(db, src, kind, msgFlag), src, kind)
    ensures src in db.jobs && msgFlag != 0 ==> Runs.Has(Flowed(db, src, kind, msgFlag).jobs, src, END)
  {
    var r := Flowed(db, src, kind, msgFlag);
    OutgoingIn(db.flows, src);
    assert Outgoing(db.flows, src) != [] && Outgoing(db.flows, src)[0] in Outgoing(db.flows, src);
    WalkedJobs(db, src, kind, msgFlag);
    DeliverAllShape(db.jobs, db.links, src, Targets(Outgoing(db.flows, src), kind));
    forall d | d != src && Spares(db.jobs, db.flows, db.links, src, kind, d)
      ensures d in r.jobs && AfterFlows(db.jobs[d], |Entries(db.flows, src, d, kind)|, r.jobs[d])
    {
      CompletedRow(db.jobs, db.flows, db.links, db.nets, src, kind, d);
    }
  }

  lemma FlowedStands(db: Db, src: JobId, kind: FlowKind, msgFlag: int)
    requires Stands(db.flows, db.nets, src) || forall f :: f in db.flows ==> f.start != src
    ensures OthersStay(db, Flowed(db, src, kind, msgFlag), src)
    ensures src in db.jobs ==>
      Runs.Has(Flowed(db, src, kind, msgFlag).jobs, src, if Stands(db.flows, db.nets, src) then RUNERR else ENDERR)
  {
    OutgoingIn(db.flows, src);
    if Outgoing(db.flows, src) != [] {
      assert Outgoing(db.flows, src)[0] in Outgoing(db.flows, src);
    }
    UnwalkedJobs(db, src, kind, msgFlag);
  }

  // ---- the values handed on -------------------------------------------------------

  // x is a copy of the latest row of its name that the job has.
  ghost predicate Latest(log: Log, job: JobId, x: Row)
  {
    exists q :: q in log.rows && q.job == job && q.name == x.name && q.value == x.value && q.name != ""
      && forall s :: s in log.rows && s.job == job && s.name == q.name ==> s.seqNo <= q.seqNo
  }

  ghost predicate OnlyLatest(was: Log, log: Log, job: JobId)
  {
    forall x :: x in log.rows && x.job == job ==> x.name == MESSAGE || Latest(was, job, x)
  }

  // New before-rows are copies of such rows of src, or of messages about it.
  ghost predicate LatestHandedOn(a: Db, b: Db, src: JobId)
  {
    forall x :: x in b.before.rows ==> x in a.before.rows || x.name == MESSAGE || Latest(a.after, src, x)
  }

  lemma CleanIsLatest(log: Log, job: JobId)
    requires Numbered(log)
    ensures OnlyLatest(log, Clean(log, job), job)
  {
    forall x | x in Clean(log, job).rows && x.job == job ensures Latest(log, job, x) {
      CleanKeeps(log, job, x);
    }
  }

  lemma RefusalLatest(was: Log, db: Db, src: JobId)
    requires OnlyLatest(was, db.after, src)
    ensures OnlyLatest(was, EndErrSet(Told(db, src), src, 1).after, src)
  {
    var told := Told(db, src);
    assert OnlyLatest(was, told.after, src);
    assert OnlyLatest(was, Clean(told.after, src), src);
  }

  lemma InsertAllFrom(log: Log, dst: JobId, rows: seq<Row>, x: Row)
    requires x in InsertAll(log, dst, rows).rows
    ensures x in log.rows || exists q :: q in rows && q.name == x.name && q.value == x.value
  {
    if rows != [] {
      var front, last := rows[..|rows|-1], rows[|rows|-1];
      assert last in rows && forall q :: q in front ==> q in rows;
      if x in InsertAll(log, dst, front).rows {
        InsertAllFrom(log, dst, front, x);
      }
    }
  }

  lemma PassedLatest(a: Db, db: Db, src: JobId, dst: JobId)
    requires OnlyLatest(a.after, db.after, src) && LatestHandedOn(a, db, src)
    ensures OnlyLatest(a.after, Passed(db, src, dst).after, src) && LatestHandedOn(a, Passed(db, src, dst), src)
  {
    match Arrive(db.jobs, db.links, dst)
    case Refused =>
      RefusalLatest(a.after, db, src);
      assert EndErrSet(Told(db, src), src, 1).before == db.before;
    case Absorbed =>
    case Arrived(_) =>
      var rows := Select(db.after.rows, src);
      forall x | x in InsertAll(db.before, dst, rows).rows
        ensures x in a.before.rows || x.name == MESSAGE || Latest(a.after, src, x)
      {
        InsertAllFrom(db.before, dst, rows, x);
        if q :| q in rows && q.name == x.name && q.value == x.value {
          assert q in db.after.rows && q.job == src;
        }
      }
  }

  lemma {:induction false} PassedAllLatest(a: Db, db: Db, src: JobId, dsts: seq<JobId>)
    requires OnlyLatest(a.after, db.after, src) && LatestHandedOn(a, db, src)
    ensures OnlyLatest(a.after, PassedAll(db, src, dsts).after, src) && LatestHandedOn(a, PassedAll(db, src, dsts), src)
  {
    if dsts != [] {
      PassedAllLatest(a, db, src, dsts[..|dsts|-1]);
      PassedLatest(a, PassedAll(db, src, dsts[..|dsts|-1]), src, dsts[|dsts|-1]);
    }
  }

  // A completion hands on no superseded value.
  lemma FlowedLatest(db: Db, src: JobId, kind: FlowKind, msgFlag: int)
    requires Numbered(db.after)
    ensures LatestHandedOn(db, Flowed(db, src, kind, msgFlag), src)
  {
    FlowedBefore(db, src, kind, msgFlag);
    CleanIsLatest(db.after, src);
    PassedAllLatest(db, CleanedAfter(db, src), src, Targets(Outgoing(db.flows, src), kind));
  }

  lemma {:induction false} PassedAllNumbered(db: Db, src: JobId, dsts: seq<JobId>)
    requires Numbered(db.after)
    ensures Numbered(PassedAll(db, src, dsts).after)
  {
    if dsts != [] {
      var front := PassedAll(db, src, dsts[..|dsts|-1]);
      PassedAllNumbered(db, src, dsts[..|dsts|-1]);
      RefusalNumbered(front, src);
    }
  }

  lemma ToldNumbered(db: Db, src: JobId)
    requires Numbered(db.after)
    ensures Numbered(Told(db, src).after)
  {
    InsertNumbered(db.after, src, MESSAGE, db.said(db.after.next));
  }

  lemma RefusalNumbered(db: Db, src: JobId)
    requires Numbered(db.after)
    ensures Numbered(EndErrSet(Told(db, src), src, 1).after)
  {
    var told := Told(db, src);
    ToldNumbered(db, src);
    CleanNumbered(told.after, src);
    ToldNumbered(CleanedAfter(told, src), src);
  }

  // A completed icon is left with one after-row per name.
  lemma FlowedTidy(db: Db, src: JobId, kind: FlowKind, msgFlag: int)
    requires Numbered(db.after) && GoesOn(db.flows, db.nets, src) && msgFlag != 0
    ensures Tidy(Flowed(db, src, kind, msgFlag).after, src)
  {
    OutgoingIn(db.flows, src);
    assert Outgoing(db.flows, src) != [] && Outgoing(db.flows, src)[0] in Outgoing(db.flows, src);
    CleanNumbered(db.after, src);
    var walked := PassedAll(CleanedAfter(db, src), src, Targets(Outgoing(db.flows, src), kind));
    PassedAllNumbered(CleanedAfter(db, src), src, Targets(Outgoing(db.flows, src), kind));
    CleanIsTidy(walked.after, src);
  }

  // What a completion of src leaves, told by the rows of the tables.
  ghost predicate Completion(a: Db, b: Db, src: JobId, kind: FlowKind, msgFlag: int)
  {
    && HandedOn(a, b, src, kind) && (Numbered(a.after) ==> LatestHandedOn(a, b, src))
    && (GoesOn(a.flows, a.nets, src) ==>
          && WalkedOn(a, b, src, kind)
          && (src in a.jobs && msgFlag != 0 ==> Runs.Has(b.jobs, src, END))
          && (Numbered(a.after) && msgFlag != 0 ==> Tidy(b.after, src)))
    && (Stands(a.flows, a.nets, src) ==> OthersStay(a, b, src) && (src in a.jobs ==> Runs.Has(b.jobs, src, RUNERR)))
    && ((forall f :: f in a.flows ==> f.start != src) ==>
          OthersStay(a, b, src) && (src in a.jobs ==> Runs.Has(b.jobs, src, ENDERR)))
  }

  lemma FlowedIsCompletion(db: Db, src: JobId, kind: FlowKind, msgFlag: int)
    ensures Completion(db, Flowed(db, src, kind, msgFlag), src, kind, msgFlag)
  {
    FlowedHands(db, src, kind, msgFlag);
    if Numbered(db.after) {
      FlowedLatest(db, src, kind, msgFlag);
      if GoesOn(db.flows, db.nets, src) && msgFlag != 0 {
        FlowedTidy(db, src, kind, msgFlag);
      }
    }
    if GoesOn(db.flows, db.nets, src) {
      FlowedWalks(db, src, kind, msgFlag);
    } else if Stands(db.flows, db.nets, src) || forall f :: f in db.flows ==> f.start != src {
      FlowedStands(db, src, kind, msgFlag);
    }
  }

  // An IF icon that decides one way leaves a successor alone that only the other
  // way leads to, values included.
  lemma BranchNotTaken(a: Db, b: Db, src: JobId, kind: FlowKind, msgFlag: int, d: JobId)
    requires Completion(a, b, src, kind, msgFlag) && kind != NORMAL && GoesOn(a.flows, a.nets, src)
    requires d != src && Spares(a.jobs, a.flows, a.links, src, kind, d)
    requires forall f :: f in a.flows && f.start == src && f.end == d ==> f.kind != kind
    ensures d in b.jobs && b.jobs[d] == a.jobs[d] && Select(b.before.rows, d) == Select(a.before.rows, d)
  {
    assert Entries(a.flows, src, d, kind) == {};
    assert AfterFlows(a.jobs[d], 0, b.jobs[d]);
  }

  // A waiting successor that one flow of its way leads to is one arrival further.
  lemma BranchTaken(a: Db, b: Db, src: JobId, kind: FlowKind, msgFlag: int, d: JobId, i: nat)
    requires Completion(a, b, src, kind, msgFlag) && kind != NORMAL && GoesOn(a.flows, a.nets, src)
    requires d != src && Spares(a.jobs, a.flows, a.links, src, kind, d) && a.jobs[d].status == BEGIN
    requires i < |a.flows| && a.flows[i].start == src && a.flows[i].end == d && a.flows[i].kind == kind
    requires forall k :: 0 <= k < |a.flows| && k != i ==> !(a.flows[k].start == src && a.flows[k].end == d && a.flows[k].kind == kind)
    ensures d in b.jobs && b.jobs[d].endCount == a.jobs[d].endCount + 1
    ensures b.jobs[d].status == READY <==>
      a.jobs[d].icon == IfEndIcon || a.jobs[d].icon == LIcon || a.jobs[d].bootCount <= a.jobs[d].endCount + 1
  {
    assert Entries(a.flows, src, d, kind) == {i};
    assert AfterFlows(a.jobs[d], 1, b.jobs[d]);
  }

  // ---- one flow ------------------------------------------------------------------

  // A refused flow: an error on its source, and nothing else on the icons.
  ghost predicate RefusedBy(a: Db, b: Db, src: JobId) { OthersStay(a, b, src) && (src in a.jobs ==> Runs.Has(b.jobs, src, ENDERR)) }

  // A flow that is taken: dst is one arrival further; if it is a jobnet icon and
  // starts, the icons of its jobnet begin anew.
  ghost predicate TakenBy(a: Db, b: Db, dst: JobId)
    requires dst in a.jobs
  {
    && b.jobs.Keys == a.jobs.Keys && AfterFlows(a.jobs[dst], 1, b.jobs[dst])
    && (forall d :: d in a.jobs && d != dst ==>
          b.jobs[d] == if b.jobs[dst].status == READY && a.jobs[dst].icon.JobnetIcon? && dst in a.links && a.links[dst] == a.jobs[d].net
                       then a.jobs[d].(status := BEGIN, endCount := 0) else a.jobs[d])
    && forall d :: d != dst ==> Select(b.before.rows, d) == Select(a.before.rows, d)
  }

  // The flow is the last that dst, a jobnet icon without a link row, waits for.
  predicate Unlinked(a: Db, dst: JobId)
    requires dst in a.jobs
  {
    var j := a.jobs[dst];
    j.icon.JobnetIcon? && dst !in a.links && Missing(j, if j.status == BEGIN then j.endCount else 0) == 1
  }

  // b is a after a flow from src into dst.
  ghost predicate OneArrival(a: Db, b: Db, src: JobId, dst: JobId)
  {
    if dst !in a.jobs || (Counts(a.jobs[dst]) && Unlinked(a, dst)) || (!Counts(a.jobs[dst]) && !a.jobs[dst].test)
    then RefusedBy(a, b, src)
    else if Counts(a.jobs[dst]) then TakenBy(a, b, dst)
    else b == a
  }

  lemma RefusalIs(db: Db, src: JobId)
    ensures RefusedBy(db, EndErrSet(Told(db, src), src, 1), src)
  {
    EndErrJobs(Told(db, src), src, 1);
  }

  lemma PassedIsArrival(db: Db, src: JobId, dst: JobId)
    ensures OneArrival(db, Passed(db, src, dst), src, dst)
  {
    match Arrive(db.jobs, db.links, dst)
    case Refused => RefusalIs(db, src);
    case Absorbed =>
    case Arrived(_) =>
      forall d | d != dst ensures Select(Passed(db, src, dst).before.rows, d) == Select(db.before.rows, d) {
        PassedElsewhere(db, src, dst, d);
      }
  }

  // ---- a run error ------------------------------------------------------------------

  // A failed icon goes on exactly with the continue flag, a status of its own and
  // no condition to decide.
  ghost predicate Failure(a: Db, b: Db, id: JobId, iconStatus: int)
  {
    && (id in a.jobs ==> Runs.Has(b.jobs, id, RUNERR))
    && if id in a.jobs && a.jobs[id].cont && iconStatus != -99 && a.jobs[id].icon != IfIcon
       then
         && HandedOn(a, b, id, NORMAL)
         && (GoesOn(a.flows, a.nets, id) ==> WalkedOn(a, b, id, NORMAL))
         && (Stands(a.flows, a.nets, id) || (forall f :: f in a.flows ==> f.start != id) ==> OthersStay(a, b, id))
       else OthersStay(a, b, id) && StatusRow(a, b, id, iconStatus)
  }

  // The icon's after-rows are cleaned, and a job icon gets its status.
  predicate StatusRow(a: Db, b: Db, id: JobId, iconStatus: int)
  {
    var cleaned := Clean(a.after, id).rows;
    b.after.rows == if id in a.jobs && id > 0 && a.jobs[id].net > 0 && a.jobs[id].icon == JobIcon && iconStatus != -99
                    then cleaned + [Row(a.after.next, id, "ICON_STATUS", StatusText(iconStatus))] else cleaned
  }

  lemma MarkedAway(a: Db, b: Db, id: JobId, status: Status, kind: FlowKind, msgFlag: int)
    requires Completion(a, b, id, kind, msgFlag)
    ensures var c := StatusSet(b, id, status);
      && HandedOn(a, c, id, kind) && (GoesOn(a.flows, a.nets, id) ==> WalkedOn(a, c, id, kind))
      && (Stands(a.flows, a.nets, id) || (forall f :: f in a.flows ==> f.start != id) ==> OthersStay(a, c, id))
  {
  }

  lemma RunErrIsFailure(db: Db, id: JobId, iconStatus: int)
    ensures Failure(db, RunErrSet(db, id, iconStatus), id, iconStatus)
  {
    if id in db.jobs {
      RunErrOutcome(db, id, iconStatus);
    }
    if Continues(db, id, iconStatus) {
      var db1 := IconStatusWritten(CleanedAfter(db, id), id, iconStatus);
      FlowedIsCompletion(db1, id, NORMAL, 0);
      var b := Flowed(db1, id, NORMAL, 0);
      MarkedAway(db1, b, id, RUNERR, NORMAL, 0);
    }
  }

  // ---- the completed icon -----------------------------------------------------

  // A refused flow marks its source ENDERR, but the completion goes on and
  // writes END over it: ENDERR survives exactly when the icon has no flow at
  // all, whatever its successors did.
  lemma SourceOutcome(db: Db, id: JobId, kind: FlowKind, msgFlag: int)
    requires id in db.jobs && msgFlag != 0
    ensures var jobs, out := Flowed(db, id, kind, msgFlag).jobs, Outgoing(db.flows, id);
      && id in jobs
      && (jobs[id].status == ENDERR <==> out == [])
      && (jobs[id].status == RUNERR <==> out != [] && !Running(db.nets, out[0].net))
      && (jobs[id].status == END <==> out != [] && Running(db.nets, out[0].net))
  {
    FlowedJobs(db, id, kind, msgFlag);
    CompleteShape(db.jobs, db.flows, db.links, db.nets, id, kind);
    DeliverAllShape(db.jobs, db.links, id, Targets(Outgoing(db.flows, id), kind));
  }

  // Icon 1 is completed while its successor runs, outside test mode.
  function Blocked(): Db
  {
    var busy := Job(5, JobIcon, false, false, 1, 0, RUN);
    Db(map[1 := busy, 2 := busy], [Flow(5, 1, 2, NORMAL)], map[], map[5 := NET_RUN], Log([], 0), Log([], 0), _ => "")
  }

  lemma BlockedWalk()
    ensures Outgoing(Blocked().flows, 1) == Blocked().flows && Targets(Blocked().flows, NORMAL) == [2]
  {
    assert Blocked().flows[..0] == [];
  }

  // The flow is refused and marks the icon ENDERR; the completion ends it END.
  lemma RefusedThenEnded()
    ensures Arrive(Blocked().jobs, Blocked().links, 2).Refused?
    ensures Runs.Has(DeliverAll(Blocked().jobs, Blocked().links, 1, Targets(Outgoing(Blocked().flows, 1), NORMAL)), 1, ENDERR)
    ensures Runs.Has(Flowed(Blocked(), 1, NORMAL, 1).jobs, 1, END)
  {
    var jobs := Blocked().jobs;
    BlockedWalk();
    assert Judge(jobs[2]).Refuse?;
    assert [2][..0] == [];
    assert DeliverAll(jobs, map[], 1, [2]) == Mark(jobs, 1, ENDERR);
    SourceOutcome(Blocked(), 1, NORMAL, 1);
  }

  // With the continue option, a run error moves the successors exactly as a
  // normal completion would; without it, and for IF icons, nothing but the
  // icon itself.
  lemma RunErrContinues(db: Db, id: JobId, iconStatus: int)
    ensures RunErrSet(db, id, iconStatus).jobs ==
      Mark(if Continues(db, id, iconStatus) then Complete(db.jobs, db.flows, db.links, db.nets, id, NORMAL) else db.jobs, id, RUNERR)
  {
    var db1 := IconStatusWritten(CleanedAfter(db, id), id, iconStatus);
    FlowedJobs(db1, id, NORMAL, 0);
    MarkTwice(Flowed(db1, id, NORMAL, 0).jobs, id, END, RUNERR);
    MarkTwice(Complete(db.jobs, db.flows, db.links, db.nets, id, NORMAL), id, END, RUNERR);
  }

  // A run error is never lost, whichever way the processing goes on.
  lemma RunErrOutcome(db: Db, id: JobId, iconStatus: int)
    requires id in db.jobs
    ensures var jobs := RunErrSet(db, id, iconStatus).jobs; id in jobs && jobs[id].status == RUNERR
  {
    RunErrContinues(db, id, iconStatus);
    CompleteShape(db.jobs, db.flows, db.links, db.nets, id, NORMAL);
  }

  // ---- steps and operations -----------------------------------------------------

  function PlanOf(db: Db): Runs.Plan { Runs.Plan(db.flows, db.links) }

  function WorldOf(db: Db): Runs.World { Runs.World(db.jobs, db.nets) }

  // A run error does to the icons what the step says.
  lemma FailedIsRunErr(db: Db, id: JobId, iconStatus: int)
    requires id in db.jobs
    ensures Runs.Failed(PlanOf(db), WorldOf(db), id, iconStatus) == RunErrSet(db, id, iconStatus).jobs
  {
    RunErrContinues(db, id, iconStatus);
  }

  // The operation of the engine behind a step that writes one icon.
  function Operation(db: Db, s: Runs.Step): Db
  {
    match s
    case RunIcon(id) => RunSet(db, id)
    case Finish(id, kind) => Flowed(db, id, kind, 1)
    case FinishEnd(id) => EndSet(db, id, 1)
    case FailIcon(id, iconStatus) => RunErrSet(db, id, iconStatus)
    case StopIcon(id) => EndErrSet(db, id, 0)
    case Launch(_, start) => StatusSet(db, start, READY)
    case AbortIcon(id) => StatusSet(db, id, ABORT)
    case Resync(id, how) =>
      (match how
       case Revive => StatusSet(db, id, RUN)
       case Finished => Flowed(db, id, NORMAL, 1)
       case FailAgain => RunErrSet(db, id, Runs.JOBNET_STATUS)
       case Stop => EndErrSet(db, id, 0))
    case NetChange(_, _) => db
  }

  lemma ResyncIsOperation(db: Db, id: JobId, how: Runs.Again)
    requires Runs.Enabled(PlanOf(db), WorldOf(db), Runs.Resync(id, how))
    ensures Runs.Next(PlanOf(db), WorldOf(db), Runs.Resync(id, how)).jobs == Operation(db, Runs.Resync(id, how)).jobs
  {
    match how
    case Revive =>
    case Finished => FlowedJobs(db, id, NORMAL, 1);
    case FailAgain => FailedIsRunErr(db, id, Runs.JOBNET_STATUS);
    case Stop => EndErrJobs(db, id, 0);
  }

  // Every step does to the icons what its operation does.
  lemma StepsAreOperations(db: Db, s: Runs.Step)
    requires Runs.Enabled(PlanOf(db), WorldOf(db), s)
    ensures Runs.Next(PlanOf(db), WorldOf(db), s).jobs == Operation(db, s).jobs
  {
    if s.Finish? {
      FlowedJobs(db, s.id, s.kind, 1);
    } else if s.FailIcon? {
      FailedIsRunErr(db, s.id, s.iconStatus);
    } else if s.Resync? {
      ResyncIsOperation(db, s.id, s.how);
    } else if s.StopIcon? {
      EndErrJobs(db, s.id, 0);
    }
  }
}
