// The linked job list of the agent (src/jobarg_agent/jajobobjectlist.c), changed
// in place beside the job table and the request flag, with the transitions of
// src/jobarg_agent/jaagent.c that drive it.
module JobList {
  import opened AgentJobs
  import opened Common
  import AgentProtocol
  import AgentRounds

  class Node {
    var data: Option<Job>
    var next: Node?

    constructor (data: Option<Job>)
      ensures this.data == data && next == null
    {
      this.data := data;
      next := null;
    }
  }

  // The nodes are linked in this order, and no node occurs twice.
  ghost predicate Linked(spine: seq<Node>)
    reads spine
  {
    && (forall i, j :: 0 <= i < j < |spine| ==> spine[i] != spine[j])
    && (forall i :: 0 <= i < |spine| - 1 ==> spine[i].next == spine[i+1])
    && (|spine| > 0 ==> spine[|spine|-1].next == null)
  }

  // The first node is a header; the others carry the jobs.
  ghost predicate Carries(spine: seq<Node>, list: seq<Job>)
    reads spine
  {
    && |spine| == |list| + 1
    && spine[0].data == None
    && (forall i :: 0 <= i < |list| ==> spine[i+1].data == Some(list[i]))
  }

  ghost predicate Among(some: seq<Node>, all: seq<Node>) { forall n :: n in some ==> n in all }

  class Agent {
    var jobs: Table            // the job table
    var flag: bool             // whether the request flag file exists
    const sendRetry: int       // CONFIG_SEND_RETRY
    const head: Node
    ghost var spine: seq<Node>
    ghost var list: seq<Job>

    ghost predicate Valid()
      reads this, spine
    {
      |spine| > 0 && spine[0] == head && Linked(spine) && Carries(spine, list)
    }

    // The agent between two rounds, in terms of the protocol.
    ghost function AsWorld(): AgentProtocol.World
      reads this
    {
      AgentProtocol.World(jobs, flag, list, AgentProtocol.Idle, map[])
    }

    // ja_job_object_list_new, when the agent starts.
    constructor (jobs: Table, flag: bool, sendRetry: int, cursor: seq<nat>)
      requires forall id :: id in cursor ==> id in jobs
      ensures Valid() && fresh(spine) && this.jobs == jobs && this.flag == flag && this.sendRetry == sendRetry
      ensures list == Listed(jobs, cursor)
    {
      this.jobs, this.flag, this.sendRetry := jobs, flag, sendRetry;
      var header := new Node(None);
      head := header;
      spine, list := [header], [];
      new;
      var pre := head;
      for i := 0 to |cursor|
        invariant Valid() && fresh(spine) && pre == spine[|spine|-1]
        invariant this.jobs == jobs && this.flag == flag && this.sendRetry == sendRetry
        invariant list == Listed(jobs, cursor[..i])
      {
        pre := Append(pre, Load(cursor[i], jobs[cursor[i]]));
        assert cursor[..i+1][..i] == cursor[..i];
      }
      assert cursor[..|cursor|] == cursor;
    }

    // A new last node.
    method Append(pre: Node, j: Job) returns (cur: Node)
      requires Valid() && pre == spine[|spine|-1]
      modifies this`spine, this`list, pre`next
      ensures Valid() && fresh(cur) && spine == old(spine) + [cur] && list == old(list) + [j]
    {
      cur := new Node(Some(j));
      pre.next := cur;
      spine, list := spine + [cur], list + [j];
    }

    // ja_jobdb_insert with the response the server gets.
    method Insert(id: nat) returns (accepted: bool)
      modifies this`jobs
      ensures accepted <==> id > 0 && (id in old(jobs) ==> old(jobs)[id].status == CLOSE)
      ensures jobs == if accepted then old(jobs)[id := Row(BEGIN, false)] else old(jobs)
    {
      if id == 0 { return false; }
      if id in jobs {
        if jobs[id].status != CLOSE { return false; }
        jobs := jobs - {id};
      }
      jobs := jobs[id := Row(BEGIN, false)];
      accepted := true;
    }

    // ja_agent_begin for a job to run; created, updated and deleted say whether
    // the flag file could be created and the row closed or deleted instead. If
    // none could, the job is accepted and nobody is told of it.
    method Begin(id: nat, created: bool, updated: bool, deleted: bool) returns (ok: bool)
      modifies this`jobs, this`flag
      ensures var accepted, begun := Accepts(old(jobs), id), old(jobs)[id := Row(BEGIN, false)];
        var announced := old(flag) || created;
        && (ok <==> accepted && (announced || (!updated && !deleted)))
        && (flag <==> old(flag) || (accepted && created))
        && jobs == if !accepted then old(jobs)
                   else if announced then begun
                   else if updated then begun[id := Row(CLOSE, false)]
                   else if deleted then begun - {id}
                   else begun
      ensures AsWorld() == AgentRounds.BeginOf(old(AsWorld()), id, created, updated, deleted)
    {
      ok := Insert(id);
      if ok && !flag {
        if created {
          flag := true;
        } else if updated {
          Update(Job(id, CLOSE, false, 0));
          ok := false;
        } else if deleted {
          jobs := jobs - {id};
          ok := false;
        }
      }
    }

    // One row of the scan: appended unless its jobid is listed.
    method AddRow(j: Job)
      requires Valid()
      modifies this`spine, this`list, spine
      ensures Valid() && fresh(set n | n in spine && n !in old(spine))
      ensures list == AddedOne(old(list), j)
    {
      var pre: Node, cur := head, head.next;
      ghost var p := 0;
      while cur != null
        invariant 0 <= p < |spine| && pre == spine[p]
        invariant cur == if p + 1 < |spine| then spine[p+1] else null
        invariant forall i :: 0 <= i < p ==> list[i].jobid != j.jobid
        decreases |spine| - p
      {
        assert cur.data == Some(list[p]);
        if cur.data.value.jobid == j.jobid {
          assert list[p].jobid == j.jobid;
          return;
        }
        pre := cur;
        cur := pre.next;
        p := p + 1;
      }
      cur := Append(pre, j);
    }

    // ja_job_object_list_add
    method ListAdd(cursor: seq<nat>)
      requires Valid() && forall id :: id in cursor ==> id in jobs
      modifies this`spine, this`list, spine
      ensures Valid() && fresh(set n | n in spine && n !in old(spine))
      ensures list == Added(old(list), jobs, cursor)
    {
      for i := 0 to |cursor|
        invariant Valid() && fresh(set n | n in spine && n !in old(spine))
        invariant list == Added(old(list), jobs, cursor[..i])
      {
        AddRow(Load(cursor[i], jobs[cursor[i]]));
        assert cursor[..i+1][..i] == cursor[..i];
      }
      assert cursor[..|cursor|] == cursor;
    }

    // ja_jobdb_update
    method Update(j: Job)
      modifies this`jobs
      ensures jobs == Stored(old(jobs), j)
    {
      jobs := jobs[j.jobid := Row(j.status, j.failed)];
    }

    // ja_agent_run; a launched process may still fail to start the job.
    method AgentRun(node: Node, launched: bool) returns (ok: bool)
      requires node.data.Some?
      modifies this`jobs, node`data
      ensures ok == launched && node.data == Some(Ran(old(node.data.value), launched))
      ensures jobs == Stored(old(jobs), node.data.value)
      ensures node.data.value == if launched then old(node.data.value).(status := RUN)
                                 else old(node.data.value).(status := END, failed := true)
    {
      var job := node.data.value;
      if launched {
        job := job.(status := RUN);
      } else {
        job := job.(failed := true, status := END);
      }
      node.data := Some(job);
      Update(job);
      ok := launched;
    }

    // ja_agent_end; stored says whether the row could be updated. If not, the job
    // is RUN again, and still reported as ended.
    method AgentEnd(node: Node, check: Check, stored: bool) returns (ok: bool)
      requires node.data.Some?
      modifies this`jobs, node`data
      ensures ok == check.Loaded?
      ensures var ended := Ended(old(node.data.value), old(jobs), check);
        && node.data == Some(if stored || check.Pending? then ended else ended.(status := RUN))
        && jobs == if check.Pending? || !stored then old(jobs) else Stored(old(jobs), ended)
      ensures check != Pending ==>
        && node.data.value.status == (if stored then END else RUN)
        && node.data.value.failed == (check == Lost || check == Unreadable || check == Loaded(true))
        && (stored ==> jobs == old(jobs)[old(node.data.value.jobid) := Row(END, node.data.value.failed)])
    {
      if check.Pending? { return false; }
      var job := node.data.value.(status := END);
      ok := false;
      if check.Lost? {
        if job.jobid in jobs && jobs[job.jobid].status == END {
          job := Load(job.jobid, jobs[job.jobid]);
        }
        job := job.(failed := true);
      } else if check.Unreadable? {
        job := job.(failed := true);
      } else {
        job := job.(failed := check.failed);
        ok := true;
      }
      if stored {
        Update(job);
      } else {
        job := job.(status := RUN);
      }
      node.data := Some(job);
    }

    // ja_agent_close
    method AgentClose(node: Node, sent: bool) returns (ok: bool)
      requires node.data.Some? && node.data.value.status == END
      modifies this`jobs, node`data
      ensures ok == sent && node.data == Some(Closed(old(node.data.value), sent, sendRetry))
      ensures jobs == if sent then Stored(old(jobs), node.data.value) else StoredIfClosed(old(jobs), node.data.value)
      ensures var was, now := old(node.data.value), node.data.value;
        && now.failed == was.failed && (now.status == CLOSE <==> sent || was.sendRetry + 1 >= sendRetry)
        && jobs == if now.status == CLOSE then old(jobs)[was.jobid := Row(CLOSE, was.failed)] else old(jobs)
    {
      var job := node.data.value;
      if !sent {
        job := job.(sendRetry := job.sendRetry + 1);
        if job.sendRetry >= sendRetry {
          job := job.(status := CLOSE);
          Update(job);
        }
        node.data := Some(job);
        return false;
      }
      job := job.(status := CLOSE);
      node.data := Some(job);
      Update(job);
      ok := true;
    }

    // Node p+1 leaves the list.
    method Unlink(pre: Node, cur: Node, ghost p: nat)
      requires Valid() && p + 1 < |spine| && pre == spine[p] && cur == spine[p+1]
      modifies this`spine, this`list, pre`next
      ensures Valid()
      ensures spine == old(spine[..p+1] + spine[p+2..]) && list == old(list[..p] + list[p+1..])
    {
      pre.next := cur.next;
      spine, list := spine[..p+1] + spine[p+2..], list[..p] + list[p+1..];
    }

    // One turn of the sweep on a job that is not CLOSE.
    method Turn(cur: Node, o: Outcome, ghost p: nat) returns (again: bool)
      requires Valid() && p < |list| && cur == spine[p+1] && list[p].status != CLOSE
      modifies this`jobs, this`list, cur`data
      ensures Valid() && |list| == |old(list)| && list == old(list)[p := list[p]]
      ensures again ==> Visit(list[p], jobs, o, sendRetry) == Visit(old(list[p]), old(jobs), o, sendRetry)
                        && Rank(list[p].status) > Rank(old(list[p].status))
      ensures !again ==> Visit(old(list[p]), old(jobs), o, sendRetry) == Left([list[p]], jobs)
    {
      var status := cur.data.value.status;
      assert status == list[p].status;
      if status == BEGIN {
        again := AgentRun(cur, o.ran);
      } else if status == RUN {
        again := AgentEnd(cur, o.check, true);
      } else {
        again := AgentClose(cur, o.sent);
      }
      list := list[p := cur.data.value];
    }

    // pre is node p and cur the one after it.
    ghost predicate At(pre: Node, cur: Node?, p: nat)
      reads this
    {
      p < |spine| && pre == spine[p] && cur == (if p + 1 < |spine| then spine[p+1] else null)
    }

    ghost predicate Continues(last: Node, q: nat)
      reads this
    {
      q < |spine| && last == spine[q]
    }

    ghost function StagesLeft(p: nat): nat
      reads this
    {
      if p < |list| then 3 - Rank(list[p].status) else 0
    }

    // The node after the p-th.
    lemma NextAt(last: Node, q: nat)
      requires Valid() && Continues(last, q)
      ensures last in spine && At(last, last.next, q)
    {
    }

    lemma Within(pre: Node, cur: Node?, p: nat)
      requires Valid() && At(pre, cur, p)
      ensures pre in spine && (cur != null ==> cur in spine) && (cur == null <==> p == |list|)
    {
    }

    ghost predicate Sweeping(s: SweepState, p: nat)
      reads this
    {
      Underway(list, jobs, s, p, sendRetry)
    }

    // A node in CLOSE is taken out.
    method Remove(pre: Node, cur: Node, ghost s: SweepState, ghost p: nat)
      requires Valid() && At(pre, cur, p) && Sweeping(s, p) && list[p].status == CLOSE
      modifies this`spine, this`list, pre`next
      ensures Valid() && At(pre, pre.next, p) && Sweeping(s.(visited := s.visited + 1), p)
      ensures Among(spine, old(spine))
    {
      Dropped(list, jobs, s, p, sendRetry);
      Unlink(pre, cur, p);
    }

    method Advance(cur: Node, o: Outcome, ghost s: SweepState, ghost p: nat) returns (again: bool)
      requires Valid() && p < |list| && cur == spine[p+1] && list[p].status != CLOSE
      requires Sweeping(s, p) && o == s.outcomes(s.visited)
      modifies this`jobs, this`list, cur`data
      ensures Valid() && p < |list| == |old(list)|
      ensures again ==> Sweeping(s, p) && Rank(list[p].status) > Rank(old(list[p].status))
      ensures !again ==> Sweeping(s.(visited := s.visited + 1), p + 1)
    {
      ghost var was, t := list, jobs;
      again := Turn(cur, o, p);
      if again {
        Again(was, t, list, jobs, s, p, sendRetry);
      } else {
        Kept(was, t, list, jobs, s, p, sendRetry);
      }
    }

    // One node under the cursor: it is to be looked at again, or last is the
    // node the sweep goes on from.
    method Pass(pre: Node, cur: Node, o: Outcome, ghost s: SweepState, ghost p: nat)
      returns (again: bool, last: Node, ghost q: nat)
      requires Valid() && At(pre, cur, p) && Sweeping(s, p) && o == s.outcomes(s.visited)
      modifies this`jobs, this`spine, this`list, pre`next, cur`data
      ensures Valid() && Among(spine, old(spine))
      ensures again ==> At(pre, cur, p) && Sweeping(s, p) && StagesLeft(p) < old(StagesLeft(p))
      ensures !again ==> Continues(last, q) && Sweeping(s.(visited := s.visited + 1), q)
    {
      assert cur.data == Some(list[p]);
      if cur.data.value.status == CLOSE {
        Remove(pre, cur, s, p);
        again, last, q := false, pre, p;
      } else {
        again := Advance(cur, o, s, p);
        last, q := cur, p + 1;
      }
    }

    // The sweep of ja_job_object_list_executive; outcomes(i) is met by the i-th
    // node visited.
    method Sweep(outcomes: nat -> Outcome)
      requires Valid()
      modifies this`jobs, this`spine, this`list, spine
      ensures Valid() && Among(spine, old(spine))
      ensures Left(list, jobs) == Swept(old(list), old(jobs), outcomes, sendRetry)
    {
      var pre: Node, cur := head, head.next;
      var visited: nat := 0;
      ghost var p: nat, s := 0, SweepState(list, jobs, outcomes, 0);
      SweepStarts(s, sendRetry);
      while cur != null
        invariant Valid() && Among(spine, old(spine))
        invariant At(pre, cur, p) && Sweeping(s, p)
        invariant s == SweepState(old(list), old(jobs), outcomes, visited)
        decreases |s.all| - visited, StagesLeft(p)
      {
        Within(pre, cur, p);
        var again, last, q := Pass(pre, cur, outcomes(visited), s, p);
        if again { continue; }
        visited, p, s := visited + 1, q, s.(visited := visited + 1);
        NextAt(last, p);
        pre := last;
        cur := pre.next;
      }
      Within(pre, cur, p);
      SweepEnds(list, jobs, s, p, sendRetry);
    }

    // ja_job_object_list_executive; removed says whether the flag file could be
    // removed, cursor answers the scan.
    method Executive(removed: bool, cursor: seq<nat>, outcomes: nat -> Outcome) returns (ok: bool)
      requires Valid() && Answers(jobs, cursor, {BEGIN})
      modifies this, spine
      ensures Valid()
      ensures ok == (!old(flag) || removed)
      ensures AsWorld() == AgentRounds.RoundOf(old(AsWorld()), removed, cursor, outcomes, sendRetry)
      ensures flag == (old(flag) && !removed)
      ensures Left(list, jobs) ==
        Swept(if old(flag) then Added(old(list), old(jobs), cursor) else old(list), old(jobs), outcomes, sendRetry)
    {
      ok := true;
      if flag {
        if removed {
          flag := false;
        } else {
          ok := false;
        }
        ListAdd(cursor);
      }
      Sweep(outcomes);
    }
  }

  // What a sweep started from, and how many jobs it is done with.
  datatype SweepState = SweepState(all: seq<Job>, table: Table, outcomes: nat -> Outcome, visited: nat)

  // The sweep has left p of the jobs it is done with in the list, and may have
  // begun with the next.
  ghost predicate Underway(list: seq<Job>, t: Table, s: SweepState, p: nat, limit: int)
  {
    && s.visited <= |s.all| && p <= |list| && |list| - p == |s.all| - s.visited
    && var behind := Swept(s.all[..s.visited], s.table, s.outcomes, limit);
      && list[..p] == behind.list
      && (if s.visited == |s.all| then t == behind.table
          else
            && list[p+1..] == s.all[s.visited+1..]
            && Visit(list[p], t, s.outcomes(s.visited), limit)
               == Visit(s.all[s.visited], behind.table, s.outcomes(s.visited), limit))
  }

  lemma Again(list: seq<Job>, t: Table, now: seq<Job>, t1: Table, s: SweepState, p: nat, limit: int)
    requires Underway(list, t, s, p, limit) && p < |list| == |now| && now == list[p := now[p]]
    requires Visit(now[p], t1, s.outcomes(s.visited), limit) == Visit(list[p], t, s.outcomes(s.visited), limit)
    ensures Underway(now, t1, s, p, limit)
  {
  }

  lemma SweptNext(s: SweepState, limit: int)
    requires s.visited < |s.all|
    ensures var behind := Swept(s.all[..s.visited], s.table, s.outcomes, limit);
      var last := Visit(s.all[s.visited], behind.table, s.outcomes(s.visited), limit);
      Swept(s.all[..s.visited+1], s.table, s.outcomes, limit) == Left(behind.list + last.list, last.table)
  {
    assert s.all[..s.visited+1][..s.visited] == s.all[..s.visited];
  }

  lemma Kept(list: seq<Job>, t: Table, now: seq<Job>, t1: Table, s: SweepState, p: nat, limit: int)
    requires Underway(list, t, s, p, limit) && p < |list| == |now| && now == list[p := now[p]]
    requires Visit(list[p], t, s.outcomes(s.visited), limit) == Left([now[p]], t1)
    ensures Underway(now, t1, s.(visited := s.visited + 1), p + 1, limit)
  {
    var n := s.visited + 1;
    SweptNext(s, limit);
    assert now[..p+1] == list[..p] + [now[p]];
    assert now[p+1..] == list[p+1..] == s.all[n..];
    if n < |s.all| {
      assert now[p+1] == now[p+1..][0] == s.all[n];
      assert now[p+2..] == now[p+1..][1..] == s.all[n+1..];
    }
  }

  lemma Dropped(list: seq<Job>, t: Table, s: SweepState, p: nat, limit: int)
    requires Underway(list, t, s, p, limit) && p < |list| && list[p].status == CLOSE
    ensures Underway(list[..p] + list[p+1..], t, s.(visited := s.visited + 1), p, limit)
  {
    var n := s.visited + 1;
    SweptNext(s, limit);
    var now := list[..p] + list[p+1..];
    assert now[..p] == list[..p] + [];
    assert now[p..] == list[p+1..] == s.all[n..];
    if n < |s.all| {
      assert now[p] == now[p..][0] == s.all[n];
      assert now[p+1..] == now[p..][1..] == s.all[n+1..];
    }
  }

  lemma SweepStarts(s: SweepState, limit: int)
    requires s.visited == 0
    ensures Underway(s.all, s.table, s, 0, limit)
  {
  }

  lemma SweepEnds(list: seq<Job>, t: Table, s: SweepState, p: nat, limit: int)
    requires Underway(list, t, s, p, limit) && p == |list|
    ensures Left(list, t) == Swept(s.all, s.table, s.outcomes, limit)
  {
    assert s.all[..s.visited] == s.all && list[..p] == list;
  }
}
