// Killing the process tree of a job (src/jalibs/jakill.c): the agent takes a
// snapshot of (pid, ppid) pairs, walks from the job down to a leaf, kills the
// leaf, blanks its entry and starts again from the job.
module ProcessKill {

  datatype Entry = Entry(pid: int, ppid: int)

  const BLANK := Entry(0, 0)

  // What kill(pid, 9) reports: success, errno ESRCH, or any other errno.
  datatype KillOutcome = Killed | NoSuchProcess | Refused

  datatype Status = Succeed | Fail

  // The filter applied while the snapshot is read: orphans, children of init
  // and the job itself are not recorded.
  function Table(procs: seq<Entry>, job: int): seq<Entry>
  {
    if procs == [] then []
    else
      var e := procs[0];
      (if e.ppid <= 1 || e.pid == job then [] else [e]) + Table(procs[1..], job)
  }

  ghost predicate DistinctPids(t: seq<Entry>)
  {
    && (forall i :: 0 <= i < |t| ==> t[i].pid != 0)
    && (forall i, j :: 0 <= i < j < |t| ==> t[i].pid != t[j].pid)
  }

  // path lists entries, each the child of the one before, the first a child of the job.
  ghost predicate Chain(t: seq<Entry>, job: int, path: seq<int>)
  {
    && |path| > 0
    && (forall k :: 0 <= k < |path| ==> 0 <= path[k] < |t|)
    && t[path[0]].ppid == job
    && (forall k :: 0 < k < |path| ==> t[path[k]].ppid == t[path[k-1]].pid)
  }

  ghost predicate Descendant(t: seq<Entry>, job: int, pid: int)
  {
    exists path :: Chain(t, job, path) && t[path[|path|-1]].pid == pid
  }

  ghost predicate Distinct(s: seq<int>)
  {
    forall i, j :: 0 <= i < j < |s| ==> s[i] != s[j]
  }

  // Every recorded child of a listed process is listed before it.
  ghost predicate ChildrenFirst(t: seq<Entry>, killed: seq<int>)
  {
    forall k, c :: 0 <= k < |killed| && 0 <= c < |t| && t[c].ppid == killed[k] ==> t[c].pid in killed[..k]
  }

  lemma TableProperties(procs: seq<Entry>, job: int)
    requires DistinctPids(procs)
    ensures DistinctPids(Table(procs, job))
    ensures forall e :: e in Table(procs, job) <==> e in procs && e.ppid > 1 && e.pid != job
  {
    if procs != [] {
      var rest := procs[1..];
      assert forall i :: 0 <= i < |rest| ==> rest[i] == procs[i+1];
      TableProperties(rest, job);
      assert forall i :: 0 <= i < |Table(rest, job)| ==> Table(rest, job)[i] in rest;
    }
  }

  // A list of distinct table positions is no longer than the table.
  lemma Pigeonhole(s: seq<int>, n: nat)
    requires Distinct(s)
    requires forall k :: 0 <= k < |s| ==> 0 <= s[k] < n
    ensures |s| <= n
  {
    CountDistinct(s);
    SubsetCount(Elements(s), Below(n));
  }

  function Below(n: nat): (b: set<int>)
    ensures |b| == n
    ensures forall k :: 0 <= k < n <==> k in b
  {
    if n == 0 then {} else Below(n - 1) + {n - 1}
  }

  function Elements(s: seq<int>): (b: set<int>)
    ensures |b| <= |s|
    ensures forall x :: x in s <==> x in b
  {
    if s == [] then {} else Elements(s[..|s|-1]) + {s[|s|-1]}
  }

  lemma CountDistinct(s: seq<int>)
    requires Distinct(s)
    ensures |Elements(s)| == |s|
  {
    if s != [] {
      CountDistinct(s[..|s|-1]);
    }
  }

  lemma SubsetCount(a: set<int>, b: set<int>)
    requires a <= b
    ensures |a| <= |b|
  {
    assert b == a + (b - a);
  }

  function Pids(t: seq<Entry>): (b: set<int>)
    ensures |b| <= |t|
    ensures forall i :: 0 <= i < |t| ==> t[i].pid in b
  {
    if t == [] then {} else Pids(t[..|t|-1]) + {t[|t|-1].pid}
  }

  // No more processes are killed than the table records.
  lemma KilledBound(t: seq<Entry>, job: int, killed: seq<int>)
    requires Distinct(killed)
    requires forall p :: p in killed ==> Descendant(t, job, p)
    ensures |killed| <= |t|
  {
    CountDistinct(killed);
    forall p | p in killed ensures p in Pids(t) {
      var path :| Chain(t, job, path) && t[path[|path|-1]].pid == p;
      assert 0 <= path[|path|-1] < |t|;
    }
    SubsetCount(Elements(killed), Pids(t));
  }

  // If no entry outside dead is a child of the job, and dead is closed under
  // children, then dead holds every descendant.
  lemma AllDescendantsDead(t: seq<Entry>, job: int, dead: set<int>, path: seq<int>)
    requires Chain(t, job, path)
    requires forall c :: 0 <= c < |t| && t[c].ppid == job ==> t[c].pid in dead
    requires forall c :: 0 <= c < |t| && t[c].ppid in dead ==> t[c].pid in dead
    ensures t[path[|path|-1]].pid in dead
  {
    if |path| > 1 {
      var front := path[..|path|-1];
      assert Chain(t, job, front);
      AllDescendantsDead(t, job, dead, front);
    }
  }

  // The walk never meets an entry twice: its parent is unique.
  lemma WalkIsFresh(t: seq<Entry>, job: int, path: seq<int>, i: int)
    requires DistinctPids(t) && (forall k :: 0 <= k < |t| ==> t[k].pid != job)
    requires path != [] ==> Chain(t, job, path)
    requires Distinct(path)
    requires 0 <= i < |t| && t[i].ppid == (if path == [] then job else t[path[|path|-1]].pid)
    ensures Chain(t, job, path + [i]) && Distinct(path + [i])
  {
    forall k | 0 <= k < |path| ensures t[path[k]].ppid != t[i].ppid {
      var last := path[|path|-1];
      if k > 0 {
        assert path[k-1] != last;
        assert t[path[k-1]].pid != t[last].pid;
      }
    }
  }

  method FindChild(jpt: array<Entry>, spid: int) returns (i: nat)
    ensures i <= jpt.Length
    ensures i < jpt.Length ==> jpt[i].ppid == spid
    ensures forall k :: 0 <= k < i ==> jpt[k].ppid != spid
  {
    i := 0;
    while i < jpt.Length
      invariant i <= jpt.Length
      invariant forall k :: 0 <= k < i ==> jpt[k].ppid != spid
    {
      if jpt[i].ppid == spid { break; }
      i := i + 1;
    }
  }

  lemma TableStep(acc: seq<Entry>, procs: seq<Entry>, i: nat, job: int)
    requires i < |procs|
    ensures var e := procs[i];
      acc + Table(procs[i..], job) == (if e.ppid <= 1 || e.pid == job then acc else acc + [e]) + Table(procs[i+1..], job)
  {
    assert procs[i..][1..] == procs[i+1..] && procs[i..][0] == procs[i];
  }

  method LoadTable(procs: seq<Entry>, job: int) returns (jpt: array<Entry>)
    ensures fresh(jpt) && jpt[..] == Table(procs, job)
  {
    var acc: seq<Entry> := [];
    var i := 0;
    while i < |procs|
      invariant 0 <= i <= |procs|
      invariant acc + Table(procs[i..], job) == Table(procs, job)
    {
      var e := procs[i];
      TableStep(acc, procs, i, job);
      if !(e.ppid <= 1 || e.pid == job) {
        acc := acc + [e];
      }
      i := i + 1;
    }
    jpt := new Entry[|acc|](k requires 0 <= k < |acc| => acc[k]);
  }

  // ja_kill. proc is the listing of /proc, ps the listing of the ps command
  // (None when the command cannot be opened), used only when proc yields nothing.
  datatype Listing = Unavailable | Rows(rows: seq<Entry>)

  function Snapshot(proc: seq<Entry>, ps: Listing, job: int): Listing
  {
    if Table(proc, job) != [] then Rows(Table(proc, job))
    else if ps.Unavailable? then Unavailable
    else Rows(Table(ps.rows, job))
  }

  // The table recorded: from /proc if that lists a process to record, otherwise
  // from ps.
  lemma SnapshotIs(proc: seq<Entry>, ps: Listing, job: int)
    requires DistinctPids(proc) && (ps.Rows? ==> DistinctPids(ps.rows))
    ensures (exists e :: e in proc && e.ppid > 1 && e.pid != job) ==>
      Snapshot(proc, ps, job).Rows?
      && forall e :: e in Snapshot(proc, ps, job).rows <==> e in proc && e.ppid > 1 && e.pid != job
    ensures (forall e :: e in proc ==> e.ppid <= 1 || e.pid == job) ==>
      if ps == Unavailable then Snapshot(proc, ps, job) == Unavailable
      else Snapshot(proc, ps, job).Rows?
           && forall e :: e in Snapshot(proc, ps, job).rows <==> e in ps.rows && e.ppid > 1 && e.pid != job
  {
    TableProperties(proc, job);
    if ps.Rows? {
      TableProperties(ps.rows, job);
    }
    if Table(proc, job) != [] {
      assert Table(proc, job)[0] in Table(proc, job);
    }
  }

  method Kill(job: int, alive: bool, proc: seq<Entry>, ps: Listing, outcome: int -> KillOutcome)
    returns (status: Status, killed: seq<int>)
    requires DistinctPids(proc) && (ps.Rows? ==> DistinctPids(ps.rows))
    ensures job == 0 || !alive ==> status == Succeed && killed == []
    ensures job != 0 && alive ==>
      var snap := Snapshot(proc, ps, job);
      if snap.Unavailable? then status == Fail && killed == []
      else
        && Distinct(killed)
        && ChildrenFirst(snap.rows, killed)
        && (forall p :: p in killed ==> Descendant(snap.rows, job, p) && outcome(p) != Refused)
        && (status == Succeed ==> forall p :: Descendant(snap.rows, job, p) ==> p in killed)
        && (status == Fail ==> exists p :: Descendant(snap.rows, job, p) && outcome(p) == Refused)
  {
    killed := [];
    if job == 0 || !alive {
      return Succeed, killed;
    }
    var jpt := LoadTable(proc, job);
    TableProperties(proc, job);
    if jpt.Length == 0 {
      if ps.Unavailable? {
        return Fail, killed;
      }
      jpt := LoadTable(ps.rows, job);
      TableProperties(ps.rows, job);
    }
    assert forall i :: 0 <= i < jpt.Length ==> jpt[i] in jpt[..];
    ghost var t := jpt[..];
    status, killed := KillLoop(jpt, job, outcome);
  }

  // What has been achieved when cur is the table, whose entries are blanked
  // exactly where the process has been killed.
  ghost predicate Progress(t: seq<Entry>, job: int, cur: seq<Entry>, killed: seq<int>, outcome: int -> KillOutcome)
  {
    && |cur| == |t|
    && (forall i :: 0 <= i < |t| ==> cur[i] == if t[i].pid in killed then BLANK else t[i])
    && Distinct(killed)
    && ChildrenFirst(t, killed)
    && (forall p :: p in killed ==> Descendant(t, job, p) && outcome(p) != Refused)
  }

  // path leads from the job to the process spid, none of it killed yet.
  ghost predicate Walk(t: seq<Entry>, job: int, path: seq<int>, pos: int, spid: int)
  {
    && Distinct(path)
    && if path == [] then pos == |t| && spid == job
       else Chain(t, job, path) && pos == path[|path|-1] && spid == t[pos].pid
  }

  ghost predicate Recorded(t: seq<Entry>, job: int)
  {
    DistinctPids(t) && forall i :: 0 <= i < |t| ==> t[i].pid != job && t[i].ppid > 1
  }

  lemma LeafKilled(t: seq<Entry>, job: int, cur: seq<Entry>, killed: seq<int>, outcome: int -> KillOutcome, path: seq<int>, pos: int)
    requires Recorded(t, job) && Progress(t, job, cur, killed, outcome)
    requires path != [] && 0 <= pos < |t| && Walk(t, job, path, pos, t[pos].pid)
    requires cur[pos] == t[pos] && outcome(t[pos].pid) != Refused
    requires forall c :: 0 <= c < |t| ==> cur[c].ppid != t[pos].pid
    ensures Progress(t, job, cur[pos := BLANK], killed + [t[pos].pid], outcome)
  {
    var next := killed + [t[pos].pid];
    assert t[pos].pid !in killed;
    forall k, c | 0 <= k < |next| && 0 <= c < |t| && t[c].ppid == next[k] ensures t[c].pid in next[..k] {
      if k < |killed| {
        assert next[..k] == killed[..k];
      } else {
        assert next[..k] == killed;
      }
    }
  }

  lemma ChildKilled(t: seq<Entry>, killed: seq<int>, c: nat)
    requires ChildrenFirst(t, killed) && c < |t| && t[c].ppid in killed
    ensures t[c].pid in killed
  {
    var k :| 0 <= k < |killed| && killed[k] == t[c].ppid;
    assert t[c].pid in killed[..k];
  }

  lemma NoneLeft(t: seq<Entry>, job: int, cur: seq<Entry>, killed: seq<int>, outcome: int -> KillOutcome)
    requires Recorded(t, job) && Progress(t, job, cur, killed, outcome)
    requires forall c :: 0 <= c < |t| ==> cur[c].ppid != job
    ensures forall p :: Descendant(t, job, p) ==> p in killed
  {
    var dead := set q | q in killed;
    forall c | 0 <= c < |t| && t[c].ppid in killed ensures t[c].pid in killed {
      ChildKilled(t, killed, c);
    }
    forall c | 0 <= c < |t| && t[c].ppid == job ensures t[c].pid in dead {
      assert cur[c].ppid != job;
    }
    forall p | Descendant(t, job, p) ensures p in killed {
      var chain :| Chain(t, job, chain) && t[chain[|chain|-1]].pid == p;
      AllDescendantsDead(t, job, dead, chain);
    }
  }

  method KillLoop(jpt: array<Entry>, job: int, outcome: int -> KillOutcome) returns (status: Status, killed: seq<int>)
    requires job != 0 && Recorded(jpt[..], job)
    modifies jpt
    ensures Distinct(killed)
    ensures ChildrenFirst(old(jpt[..]), killed)
    ensures forall p :: p in killed ==> Descendant(old(jpt[..]), job, p) && outcome(p) != Refused
    ensures status == Succeed ==> forall p :: Descendant(old(jpt[..]), job, p) ==> p in killed
    ensures status == Fail ==> exists p :: Descendant(old(jpt[..]), job, p) && outcome(p) == Refused
  {
    ghost var t := jpt[..];
    ghost var path: seq<int> := [];
    var cnt := jpt.Length;
    var spid := job;
    var pos := cnt;
    killed := [];
    while true
      invariant Progress(t, job, jpt[..], killed, outcome)
      invariant Walk(t, job, path, pos, spid)
      invariant path != [] ==> jpt[pos] == t[pos]
      invariant |killed| <= cnt && |path| <= cnt
      decreases cnt - |killed|, cnt - |path|
    {
      var i := FindChild(jpt, spid);
      if i < cnt {
        assert jpt[..][i] == jpt[i] == t[i];
        WalkIsFresh(t, job, path, i);
        path := path + [i];
        Pigeonhole(path, cnt);
        pos := i;
        spid := jpt[i].pid;
      } else if pos == cnt {
        NoneLeft(t, job, jpt[..], killed, outcome);
        return Succeed, killed;
      } else {
        assert Descendant(t, job, t[pos].pid);
        if outcome(jpt[pos].pid) == Refused {
          return Fail, killed;
        }
        LeafKilled(t, job, jpt[..], killed, outcome, path, pos);
        killed := killed + [jpt[pos].pid];
        KilledBound(t, job, killed);
        jpt[pos] := BLANK;
        spid := job;
        pos := cnt;
        path := [];
      }
    }
  }
}
