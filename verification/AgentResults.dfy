// The result a job ends with, over runs of the protocol: what the agent keeps and
// sends is what its processes and files reported last (src/jobarg_agent/jaagent.c).
module AgentResults {
  import opened AgentJobs
  import opened AgentProtocol

  // The node the executive stands at carries this job.
  predicate Stands(w: World, id: nat)
  {
    (w.place.Sweeping? || w.place.Started?) && w.place.k < |w.list| && w.list[w.place.k].jobid == id
  }

  // Whether job id counts as failed after the step, if it did before: a job that is
  // accepted starts afresh; it fails if its launch fails, if its child reports a
  // failure, if its process is lost or its files cannot be read, and otherwise the
  // files say. Nothing else changes that.
  function Told(w: World, s: Step, id: nat, was: bool): bool
  {
    match s
    case Submit(_, j) => if j == id && id > 0 && (id in w.rows ==> w.rows[id].status == CLOSE) then false else was
    case ChildEnds(j) => if j == id then true else was
    case Record => if Stands(w, id) && w.place.Started? && !w.place.ran then true else was
    case CheckEnd(check) =>
      if !Stands(w, id) || check == Pending then was
      else if check == Lost || check == Unreadable then true
      else check.failed
    case _ => was
  }

  function ToldUpTo(states: seq<World>, steps: seq<Step>, id: nat, n: nat): bool
    requires n <= |steps| < |states|
  {
    if n == 0 then id in states[0].rows && states[0].rows[id].failed
    else Told(states[n-1], steps[n-1], id, ToldUpTo(states, steps, id, n - 1))
  }

  // The row of the job, and the job in the list, hold that result once it is END;
  // before, the job has none yet.
  predicate Holds(w: World, id: nat, failed: bool)
  {
    && (id in w.rows && w.rows[id].status == END ==> w.rows[id].failed == failed)
    && (forall i :: 0 <= i < |w.list| && w.list[i].jobid == id && w.list[i].status == END ==> w.list[i].failed == failed)
  }

  lemma MovedHolds(w: World, j: Job, rows: Table, k: nat, id: nat, was: bool, failed: bool)
    requires Sound(w) && Holds(w, id, was) && (w.place.Sweeping? || w.place.Started?) && w.place.k < |w.list|
    requires j.jobid == w.list[w.place.k].jobid && (j.jobid == id ==> (j.status == END ==> j.failed == failed))
    requires j.jobid != id ==> was == failed && (id in rows <==> id in w.rows) && (id in rows ==> rows[id] == w.rows[id])
    requires j.jobid == id && id in rows && rows[id].status == END ==> rows[id].failed == failed
    ensures Holds(Moved(w, j, rows, k), id, failed)
  {
    var now := w.list[w.place.k := j];
    forall i | 0 <= i < |now| && now[i].jobid == id && now[i].status == END ensures now[i].failed == failed {
      if i != w.place.k {
        assert now[i] == w.list[i];
      }
    }
  }

  lemma RecordHolds(w: World, id: nat, was: bool, limit: int)
    requires Sound(w) && Enabled(w, Record) && Holds(w, id, was)
    ensures Holds(Next(w, Record, limit), id, Told(w, Record, id, was))
  {
    var j := Ran(w.list[w.place.k], w.place.ran);
    MovedHolds(w, j, Stored(w.rows, j), if w.place.ran then w.place.k else w.place.k + 1, id, was, Told(w, Record, id, was));
  }

  lemma CheckHolds(w: World, check: Check, id: nat, was: bool, limit: int)
    requires Sound(w) && Enabled(w, CheckEnd(check)) && Holds(w, id, was)
    ensures Holds(Next(w, CheckEnd(check), limit), id, Told(w, CheckEnd(check), id, was))
  {
    var j := Ended(w.list[w.place.k], w.rows, check);
    MovedHolds(w, j, if check.Pending? then w.rows else Stored(w.rows, j), if check.Loaded? then w.place.k else w.place.k + 1,
               id, was, Told(w, CheckEnd(check), id, was));
  }

  lemma SendHolds(w: World, sent: bool, id: nat, was: bool, limit: int)
    requires Sound(w) && Enabled(w, Send(sent)) && Holds(w, id, was)
    ensures Holds(Next(w, Send(sent), limit), id, was)
  {
    var j := AgentJobs.Closed(w.list[w.place.k], sent, limit);
    MovedHolds(w, j, StoredIfClosed(w.rows, j), if sent then w.place.k else w.place.k + 1, id, was, was);
  }

  lemma ScanHolds(w: World, cursor: seq<nat>, id: nat, was: bool, limit: int)
    requires Sound(w) && Enabled(w, Scan(cursor)) && Holds(w, id, was)
    ensures Holds(Next(w, Scan(cursor), limit), id, was)
  {
    ScanIsExact(w.list, w.rows, cursor);
    var now := Added(w.list, w.rows, cursor);
    forall i | 0 <= i < |now| && now[i].jobid == id && now[i].status == END ensures now[i].failed == was {
      if i < |w.list| {
        assert now[i] == now[..|w.list|][i];
      }
    }
  }

  lemma RestartHolds(w: World, cursor: seq<nat>, id: nat, was: bool, limit: int)
    requires Enabled(w, Restart(cursor)) && Holds(w, id, was)
    ensures Holds(Next(w, Restart(cursor), limit), id, was)
  {
    RestartIsExact(w.rows, cursor);
    var now := Listed(w.rows, cursor);
    assert forall i :: 0 <= i < |now| ==> now[i] in now;
  }

  lemma StepHolds(w: World, s: Step, id: nat, was: bool, limit: int)
    requires Sound(w) && Enabled(w, s) && Safe(w, s) && Holds(w, id, was)
    ensures Holds(Next(w, s, limit), id, Told(w, s, id, was))
  {
    match s {
      case Record => RecordHolds(w, id, was, limit);
      case CheckEnd(check) => CheckHolds(w, check, id, was, limit);
      case Send(sent) => SendHolds(w, sent, id, was, limit);
      case Scan(cursor) => ScanHolds(w, cursor, id, was, limit);
      case Restart(cursor) => RestartHolds(w, cursor, id, was, limit);
      case _ =>
    }
  }

  // Over whole runs a job or row at END has the result last told; so has what is
  // sent, and a restart finds it again.
  lemma {:induction false} ResultsAreTold(states: seq<World>, steps: seq<Step>, limit: int, n: nat, id: nat)
    requires IsRun(states, steps, limit) && Sound(states[0]) && n <= |steps| && SafeUpTo(states, steps, n)
    requires Holds(states[0], id, id in states[0].rows && states[0].rows[id].failed)
    ensures Holds(states[n], id, ToldUpTo(states, steps, id, n))
  {
    if n > 0 {
      ResultsAreTold(states, steps, limit, n - 1, id);
      SoundRun(states, steps, limit, n - 1);
      assert Sound(states[n-1]);
      StepHolds(states[n-1], steps[n-1], id, ToldUpTo(states, steps, id, n - 1), limit);
    }
  }

  // So what is sent is that result, and the row of a closed job keeps it.
  lemma SentAsTold(states: seq<World>, steps: seq<Step>, limit: int, n: nat, id: nat)
    requires IsRun(states, steps, limit) && Sound(states[0]) && n < |steps| && SafeUpTo(states, steps, n)
    requires Holds(states[0], id, id in states[0].rows && states[0].rows[id].failed)
    requires steps[n].Send? && Stands(states[n], id)
    ensures states[n].list[states[n].place.k].failed == ToldUpTo(states, steps, id, n)
    ensures states[n+1].rows == states[n].rows || states[n+1].rows == states[n].rows[id := Row(CLOSE, ToldUpTo(states, steps, id, n))]
  {
    ResultsAreTold(states, steps, limit, n, id);
  }
}
