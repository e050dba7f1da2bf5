// The engine over the tables: completion of an icon (ja_flow in src/jalibs/jaflow.c)
// and the status setters it is mutually recursive with (src/jalibs/jastatus.c),
// each operation against its function in FlowOperations.
module FlowEngine {
  import opened Common
  import opened FlowTables
  import opened ValueTables
  import opened FlowOperations
  import opened FlowLaws

  class FlowEngine {
    var jobs: Jobs
    var flows: seq<Flow>
    var links: Links
    var nets: Nets
    var before: Log
    var after: Log
    const said: nat -> string

    function View(): Db
      reads this
    {
      Db(jobs, flows, links, nets, before, after, said)
    }

    ghost predicate Valid()
      reads this
    {
      ValidDb(View())
    }

    method CleanValueAfter(id: JobId)
      requires Valid()
      modifies this`after
      ensures Valid() && View() == CleanedAfter(old(View()), id)
    {
      CleanNumbered(after, id);
      after := CleanLog(after, id);
    }

    method CleanValueBefore(id: JobId)
      requires Valid()
      modifies this`before
      ensures Valid() && View() == old(View()).(before := Clean(old(before), id))
    {
      CleanNumbered(before, id);
      before := CleanLog(before, id);
    }

    // ja_value_after_before
    method ValueAfterBefore(id: JobId, next: JobId)
      requires Valid()
      modifies this`before
      ensures Valid()
      ensures View() == old(View()).(before := InsertAll(old(before), next, Select(after.rows, id)))
    {
      var rows := Select(after.rows, id);
      for i := 0 to |rows|
        invariant Valid() && before == InsertAll(old(before), next, rows[..i])
      {
        InsertNumbered(before, next, rows[i].name, rows[i].value);
        before := Insert(before, next, rows[i].name, rows[i].value);
        assert rows[..i+1][..i] == rows[..i];
      }
      assert rows[..|rows|] == rows;
    }

    // ja_set_value_before refuses a job or jobnet without an id.
    method SetValueBefore(id: JobId, net: NetId, name: string, value: string) returns (ok: bool)
      requires Valid()
      modifies this`before
      ensures Valid() && (ok <==> id > 0 && net > 0)
      ensures View() == if ok then old(View()).(before := Insert(old(before), id, name, value)) else old(View())
    {
      if id == 0 || net == 0 { return false; }
      InsertNumbered(before, id, name, value);
      before := Insert(before, id, name, value);
      ok := true;
    }

    method RemoveValueBefore(id: JobId, name: string)
      requires Valid()
      modifies this`before
      ensures Valid() && View() == old(View()).(before := Erase(old(before), id, name))
    {
      EraseNumbered(before, id, name);
      before := Erase(before, id, name);
    }

    method RemoveValueAfter(id: JobId, name: string)
      requires Valid()
      modifies this`after
      ensures Valid() && View() == old(View()).(after := Erase(old(after), id, name))
    {
      EraseNumbered(after, id, name);
      after := Erase(after, id, name);
    }

    method SetStatusJob(id: JobId, status: Status)
      requires Valid()
      modifies this`jobs
      ensures Valid() && View() == StatusSet(old(View()), id, status)
    {
      if id in jobs {
        jobs := jobs[id := jobs[id].(status := status)];
      }
    }

    method SetRun(id: JobId)
      requires Valid()
      modifies this
      ensures Valid() && View() == RunSet(old(View()), id)
      ensures Tidy(before, id) && (id in jobs ==> jobs[id].status == RUN)
    {
      CleanIsTidy(before, id);
      CleanValueBefore(id);
      SetStatusJob(id, RUN);
    }

    method SetEnd(id: JobId, msgFlag: int)
      requires Valid()
      modifies this
      ensures Valid() && View() == EndSet(old(View()), id, msgFlag)
      ensures msgFlag != 0 ==> Tidy(after, id) && (id in jobs ==> jobs[id].status == END)
    {
      CleanIsTidy(after, id);
      if msgFlag == 0 { return; }
      CleanValueAfter(id);
      SetStatusJob(id, END);
    }

    // ja_log: an error or a warning becomes a row of the icon it is about.
    method Tell(id: JobId)
      requires Valid()
      modifies this`after
      ensures Valid() && View() == Told(old(View()), id)
      ensures id in jobs && id > 0 && jobs[id].net > 0 ==>
        after.rows == old(after.rows) + [Row(old(after.next), id, "JOBARG_MESSAGE", said(old(after.next)))]
      ensures !(id in jobs && id > 0 && jobs[id].net > 0) ==> after == old(after)
    {
      if id in jobs && jobs[id].net != 0 && id != 0 {
        InsertNumbered(after, id, MESSAGE, said(after.next));
        after := Insert(after, id, MESSAGE, said(after.next));
      }
    }

    method SetEndErr(id: JobId, msgFlag: int)
      requires Valid()
      modifies this
      ensures Valid() && View() == EndErrSet(old(View()), id, msgFlag)
      ensures id in jobs ==> jobs[id].status == ENDERR
      ensures var cleaned := Clean(old(after), id).rows;
        after.rows == if msgFlag == 1 && id in jobs && id > 0 && jobs[id].net > 0
                      then cleaned + [Row(old(after.next), id, "JOBARG_MESSAGE", said(old(after.next)))] else cleaned
    {
      CleanValueAfter(id);
      if msgFlag == 1 {
        Tell(id);
      }
      SetStatusJob(id, ENDERR);
    }

    // A message about the icon, which ends in error.
    method Refuse(id: JobId)
      requires Valid()
      modifies this
      ensures Valid() && View() == EndErrSet(Told(old(View()), id), id, 1)
    {
      Tell(id);
      SetEndErr(id, 1);
    }

    // The job controller variable ICON_STATUS.
    method WriteIconStatus(id: JobId, icon: Icon, iconStatus: int)
      requires Valid() && (id in jobs ==> icon == jobs[id].icon) && (id !in jobs ==> !icon.JobIcon?)
      modifies this`after
      ensures Valid() && View() == IconStatusWritten(old(View()), id, iconStatus)
    {
      if icon.JobIcon? && iconStatus != NO_STATUS && id > 0 && jobs[id].net > 0 {
        InsertNumbered(after, id, "ICON_STATUS", StatusText(iconStatus));
        after := Insert(after, id, "ICON_STATUS", StatusText(iconStatus));
      }
    }

    method SetRunErr(id: JobId, iconStatus: int)
      requires Valid()
      modifies this
      ensures Valid() && View() == RunErrSet(old(View()), id, iconStatus)
      ensures Failure(old(View()), View(), id, iconStatus)
      decreases if iconStatus == NO_STATUS then 0 else 2
    {
      RunErrIsFailure(View(), id, iconStatus);
      CleanValueAfter(id);
      var icon, cont := StartIcon, false;
      if id in jobs {
        icon, cont := jobs[id].icon, jobs[id].cont;
      }
      WriteIconStatus(id, icon, iconStatus);
      if !cont || iconStatus == NO_STATUS || icon.IfIcon? {
        SetStatusJob(id, RUNERR);
        return;
      }
      Flow(id, NORMAL, 0);
      SetStatusJob(id, RUNERR);
    }

    // The end of ja_flow_set_status: reset a linked jobnet, store, copy the values.
    method StoreArrival(start: JobId, end: JobId, updStatus: Status, endCount: int)
      requires Valid() && end in jobs && Judge(jobs[end]) == Take(updStatus, endCount)
      modifies this
      ensures Valid() && View() == Passed(old(View()), start, end)
    {
      if jobs[end].icon.JobnetIcon? && updStatus == READY {
        if end !in links {
          Refuse(start);
          return;
        }
        jobs := ResetNet(jobs, links[end]);
      }
      jobs := jobs[end := jobs[end].(status := updStatus, endCount := endCount)];
      ValueAfterBefore(start, end);
    }

    // ja_flow_set_status
    method FlowSetStatus(start: JobId, end: JobId)
      requires Valid()
      modifies this
      ensures Valid() && View() == Passed(old(View()), start, end)
      ensures OneArrival(old(View()), View(), start, end)
    {
      PassedIsArrival(View(), start, end);
      if end !in jobs {
        Refuse(start);
        return;
      }
      var job := jobs[end];
      var status, endCount := job.status, job.endCount;
      if status == END || status == RUNERR {
        if job.test { return; }
        if job.icon.EndIcon? {
          Refuse(start);
          return;
        }
        status, endCount := BEGIN, 0;
      }
      var updStatus := BEGIN;
      if status == BEGIN {
        endCount := endCount + 1;
        if job.icon.IfEndIcon? || job.icon.LIcon? {
          updStatus := READY;
        } else if job.bootCount <= endCount {
          updStatus := READY;
        }
      } else {
        if !job.test {
          Refuse(start);
        }
        return;
      }
      assert Judge(job) == Take(updStatus, endCount);
      StoreArrival(start, end, updStatus, endCount);
    }

    // One row of the walk.
    method Follow(id: JobId, kind: FlowKind, flow: Flow)
      requires Valid()
      modifies this
      ensures Valid() && View() == if Follows(kind, flow) then Passed(old(View()), id, flow.end) else old(View())
    {
      if flow.kind == kind || (kind == NORMAL && (flow.kind == TRUE || flow.kind == FALSE)) {
        FlowSetStatus(id, flow.end);
      }
    }

    // The jobnet does not run.
    method Stop(id: JobId)
      requires Valid()
      modifies this
      ensures Valid() && View() == RunErrSet(Told(old(View()), id), id, NO_STATUS)
      decreases 1, 0
    {
      Tell(id);
      SetRunErr(id, NO_STATUS);
    }

    // ja_flow
    method Flow(id: JobId, kind: FlowKind, msgFlag: int)
      requires Valid()
      modifies this
      ensures Valid() && View() == Flowed(old(View()), id, kind, msgFlag)
      ensures Completion(old(View()), View(), id, kind, msgFlag)
      decreases 1
    {
      FlowedIsCompletion(View(), id, kind, msgFlag);
      CleanValueAfter(id);
      ghost var start := View();
      var rows := Outgoing(flows, id);
      for i := 0 to |rows|
        invariant Valid() && View() == PassedAll(start, id, Targets(rows[..i], kind))
        invariant i > 0 ==> Running(nets, rows[0].net)
        invariant flows == old(flows) && nets == old(nets)
      {
        if i == 0 {
          var status := if rows[0].net in nets then nets[rows[0].net] else NET_BEGIN;
          if status != NET_RUN && status != NET_RUNERR {
            Stop(id);
            return;
          }
        }
        PassedNext(start, id, kind, rows, i);
        Follow(id, kind, rows[i]);
      }
      assert rows[..|rows|] == rows;
      if |rows| == 0 {
        Refuse(id);
      } else {
        SetEnd(id, msgFlag);
      }
    }
  }

  lemma PassedOne(db: Db, src: JobId, dsts: seq<JobId>, dst: JobId)
    ensures PassedAll(db, src, dsts + [dst]) == Passed(PassedAll(db, src, dsts), src, dst)
  {
    assert (dsts + [dst])[..|dsts|] == dsts;
  }

  // The walk, one row further.
  lemma PassedNext(db: Db, id: JobId, kind: FlowKind, rows: seq<Flow>, i: nat)
    requires i < |rows|
    ensures var before := PassedAll(db, id, Targets(rows[..i], kind));
      var next := if Follows(kind, rows[i]) then Passed(before, id, rows[i].end) else before;
      PassedAll(db, id, Targets(rows[..i+1], kind)) == next && next.flows == db.flows && next.nets == db.nets
  {
    var dsts := Targets(rows[..i], kind);
    assert rows[..i+1][..i] == rows[..i];
    PassedFrame(db, id, dsts);
    PassedFrame(db, id, dsts + [rows[i].end]);
    PassedOne(db, id, dsts, rows[i].end);
    assert Targets(rows[..i+1], kind) == if Follows(kind, rows[i]) then dsts + [rows[i].end] else dsts;
  }

  lemma SettledFrame(db: Db, src: JobId, dst: JobId, a: Arrival)
    ensures var r := Settled(db, src, dst, a); r.flows == db.flows && r.links == db.links && r.nets == db.nets && r.said == db.said
  {
  }

  lemma {:induction false} PassedFrame(db: Db, src: JobId, dsts: seq<JobId>)
    ensures var r := PassedAll(db, src, dsts); r.flows == db.flows && r.links == db.links && r.nets == db.nets && r.said == db.said
  {
    if dsts != [] {
      var before, dst := PassedAll(db, src, dsts[..|dsts|-1]), dsts[|dsts|-1];
      PassedFrame(db, src, dsts[..|dsts|-1]);
      SettledFrame(before, src, dst, Arrive(before.jobs, before.links, dst));
    }
  }
}
