// Jobs of the agent: the rows of its job table (src/jobarg_agent/jajobdb.c) and
// what one call of ja_agent_run, ja_agent_end and ja_agent_close makes of a job
// (src/jobarg_agent/jaagent.c), and so of the whole list in one sweep
// (src/jobarg_agent/jajobobjectlist.c).
module AgentJobs {

  datatype Status = BEGIN | RUN | END | CLOSE

  datatype Row = Row(status: Status, failed: bool)

  type Table = map<nat, Row>

  // A job in memory.
  datatype Job = Job(jobid: nat, status: Status, failed: bool, sendRetry: nat)

  // ja_jobdb_load: the retries are counted afresh.
  function Load(id: nat, row: Row): Job { Job(id, row.status, row.failed, 0) }

  // ja_jobdb_replace
  function Stored(t: Table, j: Job): Table { t[j.jobid := Row(j.status, j.failed)] }

  // Jobids that ja_jobdb_insert takes.
  predicate Accepts(t: Table, id: nat) { id > 0 && (id in t ==> t[id].status == CLOSE) }

  // ---- one call on one job ------------------------------------------------------

  datatype Check = Pending | Lost | Unreadable | Loaded(failed: bool)

  // What the processes, files and sockets answer while one job is visited.
  datatype Outcome = Outcome(ran: bool, check: Check, sent: bool)

  function Ran(j: Job, ran: bool): Job
  {
    if ran then j.(status := RUN) else j.(status := END, failed := true)
  }

  function Ended(j: Job, t: Table, check: Check): Job
  {
    match check
    case Pending => j
    case Lost =>
      if j.jobid in t && t[j.jobid].status == END then Load(j.jobid, t[j.jobid]).(failed := true)
      else j.(status := END, failed := true)
    case Unreadable => j.(status := END, failed := true)
    case Loaded(failed) => j.(status := END, failed := failed)
  }

  function Closed(j: Job, sent: bool, limit: int): Job
  {
    if sent then j.(status := CLOSE)
    else
      var retried := j.(sendRetry := j.sendRetry + 1);
      if retried.sendRetry >= limit then retried.(status := CLOSE) else retried
  }

  function StoredIfClosed(t: Table, j: Job): Table { if j.status == CLOSE then Stored(t, j) else t }

  // ---- the list ------------------------------------------------------------------

  predicate HasId(list: seq<Job>, id: nat) { exists i :: 0 <= i < |list| && list[i].jobid == id }

  predicate Distinct(list: seq<Job>) { forall i, j :: 0 <= i < j < |list| ==> list[i].jobid != list[j].jobid }

  // A query answers each matching row once, in any order.
  ghost predicate Answers(t: Table, cursor: seq<nat>, wanted: set<Status>)
  {
    && (forall i, j :: 0 <= i < j < |cursor| ==> cursor[i] != cursor[j])
    && (forall id :: id in cursor <==> id in t && t[id].status in wanted)
  }

  function Listed(t: Table, cursor: seq<nat>): seq<Job>
    requires forall id :: id in cursor ==> id in t
  {
    if cursor == [] then [] else Listed(t, cursor[..|cursor|-1]) + [Load(cursor[|cursor|-1], t[cursor[|cursor|-1]])]
  }

  function AddedOne(list: seq<Job>, j: Job): seq<Job> { if HasId(list, j.jobid) then list else list + [j] }

  function Added(list: seq<Job>, t: Table, cursor: seq<nat>): seq<Job>
    requires forall id :: id in cursor ==> id in t
  {
    if cursor == [] then list
    else AddedOne(Added(list, t, cursor[..|cursor|-1]), Load(cursor[|cursor|-1], t[cursor[|cursor|-1]]))
  }

  // What is left of a visited job, and the table after it.
  datatype Left = Left(list: seq<Job>, table: Table)

  function Rank(s: Status): nat { match s case BEGIN => 0 case RUN => 1 case END => 2 case CLOSE => 3 }

  function Visit(j: Job, t: Table, o: Outcome, limit: int): Left
    decreases 3 - Rank(j.status)
  {
    match j.status
    case BEGIN =>
      var ran := Ran(j, o.ran);
      if o.ran then Visit(ran, Stored(t, ran), o, limit) else Left([ran], Stored(t, ran))
    case RUN =>
      var ended := Ended(j, t, o.check);
      if o.check.Pending? then Left([j], t)
      else if o.check.Loaded? then Visit(ended, Stored(t, ended), o, limit)
      else Left([ended], Stored(t, ended))
    case END =>
      var closed := Closed(j, o.sent, limit);
      if o.sent then Left([], Stored(t, closed)) else Left([closed], StoredIfClosed(t, closed))
    case CLOSE => Left([], t)
  }

  // outcomes(i) is met by the i-th job of the list.
  function Swept(list: seq<Job>, t: Table, outcomes: nat -> Outcome, limit: int): Left
  {
    if list == [] then Left([], t)
    else
      var front := Swept(list[..|list|-1], t, outcomes, limit);
      var last := Visit(list[|list|-1], front.table, outcomes(|list| - 1), limit);
      Left(front.list + last.list, last.table)
  }

  // ---- what a restart and a scan find ------------------------------------------------

  lemma {:induction false} ListedIs(t: Table, cursor: seq<nat>)
    requires forall id :: id in cursor ==> id in t
    ensures |Listed(t, cursor)| == |cursor|
    ensures forall i :: 0 <= i < |cursor| ==> Listed(t, cursor)[i] == Load(cursor[i], t[cursor[i]])
  {
    if cursor != [] {
      ListedIs(t, cursor[..|cursor|-1]);
    }
  }

  // A restart rebuilds exactly the rows that are not CLOSE, each once.
  lemma RestartIsExact(t: Table, cursor: seq<nat>)
    requires Answers(t, cursor, {BEGIN, RUN, END})
    ensures Distinct(Listed(t, cursor))
    ensures forall j :: j in Listed(t, cursor) <==>
      (j.jobid in t && t[j.jobid].status != CLOSE && j == Job(j.jobid, t[j.jobid].status, t[j.jobid].failed, 0))
  {
    ListedIs(t, cursor);
    var list := Listed(t, cursor);
    forall j: Job | j.jobid in t && t[j.jobid].status != CLOSE && j == Load(j.jobid, t[j.jobid]) ensures j in list {
      assert j.jobid in cursor;
      var i :| 0 <= i < |cursor| && cursor[i] == j.jobid;
      assert list[i] == j;
    }
  }

  // A scan keeps the list in front, repeats no jobid, and adds exactly the BEGIN
  // rows whose jobid was not listed.
  lemma {:induction false} ScanIsExact(list: seq<Job>, t: Table, cursor: seq<nat>)
    requires Distinct(list) && forall id :: id in cursor ==> id in t
    ensures var now := Added(list, t, cursor);
      && Distinct(now) && |list| <= |now| && now[..|list|] == list
      && (forall id :: HasId(now, id) <==> HasId(list, id) || id in cursor)
      && (forall i :: |list| <= i < |now| ==>
            now[i].jobid in cursor && now[i] == Job(now[i].jobid, t[now[i].jobid].status, t[now[i].jobid].failed, 0))
  {
    if cursor != [] {
      var front, id := cursor[..|cursor|-1], cursor[|cursor|-1];
      assert forall x :: x in cursor <==> x in front || x == id;
      ScanIsExact(list, t, front);
      AddedOneIs(Added(list, t, front), Load(id, t[id]));
    }
  }

  lemma AddedOneIs(list: seq<Job>, j: Job)
    requires Distinct(list)
    ensures var now := AddedOne(list, j);
      && Distinct(now) && |list| <= |now| <= |list| + 1 && now[..|list|] == list
      && (forall id :: HasId(now, id) <==> HasId(list, id) || id == j.jobid)
      && (|now| > |list| ==> now[|list|] == j)
  {
    var now := AddedOne(list, j);
    if !HasId(list, j.jobid) {
      assert now[|list|].jobid == j.jobid;
      forall id | HasId(list, id) ensures HasId(now, id) {
        var i :| 0 <= i < |list| && list[i].jobid == id;
        assert now[i].jobid == id;
      }
    }
  }

  // ---- what a sweep leaves --------------------------------------------------------------

  // The job is visited in CLOSE: closed before, or its result is sent now.
  predicate Finished(j: Job, o: Outcome)
  {
    && (j.status == BEGIN ==> o.ran)
    && (j.status == BEGIN || j.status == RUN ==> o.check.Loaded?)
    && (j.status != CLOSE ==> o.sent)
  }

  lemma VisitLeaves(j: Job, t: Table, o: Outcome, limit: int)
    ensures var left := Visit(j, t, o, limit);
      && |left.list| == (if Finished(j, o) then 0 else 1)
      && (!Finished(j, o) ==> left.list[0].jobid == j.jobid)
      && (forall id :: id in left.table && id != j.jobid ==> id in t && left.table[id] == t[id])
      && t.Keys <= left.table.Keys
    decreases 3 - Rank(j.status)
  {
    if j.status == BEGIN && o.ran {
      VisitLeaves(Ran(j, true), Stored(t, Ran(j, true)), o, limit);
    } else if j.status == RUN && o.check.Loaded? {
      var ended := Ended(j, t, o.check);
      VisitLeaves(ended, Stored(t, ended), o, limit);
    }
  }

  function Ids(list: seq<Job>): seq<nat>
  {
    if list == [] then [] else Ids(list[..|list|-1]) + [list[|list|-1].jobid]
  }

  function Unfinished(list: seq<Job>, outcomes: nat -> Outcome): seq<Job>
  {
    if list == [] then []
    else
      Unfinished(list[..|list|-1], outcomes)
      + if Finished(list[|list|-1], outcomes(|list| - 1)) then [] else [list[|list|-1]]
  }

  // A sweep keeps the order of the list and takes out exactly the jobs it visits
  // in CLOSE.
  lemma {:induction false} SweepKeepsOrder(list: seq<Job>, t: Table, outcomes: nat -> Outcome, limit: int)
    ensures Ids(Swept(list, t, outcomes, limit).list) == Ids(Unfinished(list, outcomes))
  {
    if list != [] {
      var front, j := list[..|list|-1], list[|list|-1];
      var before := Swept(front, t, outcomes, limit);
      SweepKeepsOrder(front, t, outcomes, limit);
      VisitLeaves(j, before.table, outcomes(|list| - 1), limit);
      var left := Visit(j, before.table, outcomes(|list| - 1), limit).list;
      if Finished(j, outcomes(|list| - 1)) {
        assert before.list + left == before.list;
        assert Unfinished(front, outcomes) + [] == Unfinished(front, outcomes);
      } else {
        assert left == [left[0]];
        IdsOne(before.list, left[0]);
        IdsOne(Unfinished(front, outcomes), j);
      }
    }
  }

  lemma IdsOne(list: seq<Job>, j: Job)
    ensures Ids(list + [j]) == Ids(list) + [j.jobid]
  {
    assert (list + [j])[..|list|] == list;
  }

  // ---- retries ------------------------------------------------------------------------------

  // A job in END after n failed sends, counted in one life of the agent.
  function AfterFailures(j: Job, limit: int, n: nat): Job
  {
    if n == 0 then j
    else
      var before := AfterFailures(j, limit, n - 1);
      if before.status == END then Closed(before, false, limit) else before
  }

  // The job is given up at the send that makes the configured number of
  // failures, but never before one send has failed.
  lemma {:induction false} GivesUp(j: Job, limit: int, n: nat)
    requires j.status == END && j.sendRetry == 0
    ensures AfterFailures(j, limit, n).status == (if n > 0 && n >= limit then CLOSE else END)
    ensures AfterFailures(j, limit, n).sendRetry == (if n > 0 && n >= limit then if limit > 1 then limit else 1 else n)
  {
    if n > 0 {
      GivesUp(j, limit, n - 1);
    }
  }
}
