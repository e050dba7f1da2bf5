// The status of a running jobnet, counted from its icons (jajobnet_run in
// src/jobarg_server/jajobnet/jajobnetrun.c).
module JobnetStatus {
  import opened Common
  import opened FlowTables
  import opened TokenFlow

  // ---- the icons that matter --------------------------------------------------------

  predicate IsStart(j: Job) { j.icon.StartIcon? }
  predicate IsEnd(j: Job) { j.icon.EndIcon? }
  predicate IsReady(j: Job) { j.status == READY }
  predicate IsRunning(j: Job) { j.status == RUN }
  predicate HasFailed(j: Job) { (j.status == RUNERR || j.status == ABORT) && !j.cont }
  predicate HasEnded(j: Job) { j.status == END || ((j.status == RUNERR || j.status == ABORT) && j.cont) }
  predicate EndIconEnded(j: Job) { j.status == END && j.icon.EndIcon? }
  predicate EndedInError(j: Job) { j.status == ENDERR }

  ghost predicate Any(jobs: Jobs, net: NetId, has: Job -> bool) { exists x :: In(jobs, x, net) && has(jobs[x]) }

  ghost predicate Two(jobs: Jobs, net: NetId, has: Job -> bool)
  {
    exists x, y :: In(jobs, x, net) && In(jobs, y, net) && x != y && has(jobs[x]) && has(jobs[y])
  }

  ghost predicate One(jobs: Jobs, net: NetId, has: Job -> bool) { Any(jobs, net, has) && !Two(jobs, net, has) }

  ghost predicate All(jobs: Jobs, net: NetId, has: Job -> bool) { forall x :: In(jobs, x, net) ==> has(jobs[x]) }

  // The loader gives all icons of a jobnet one test flag.
  ghost predicate TestFlag(jobs: Jobs, net: NetId, test: bool) { forall x :: In(jobs, x, net) ==> jobs[x].test == test }

  // ---- what the status is to be -------------------------------------------------------

  ghost predicate Broken(jobs: Jobs, net: NetId, test: bool)
  {
    || Any(jobs, net, EndedInError)
    || !One(jobs, net, IsStart) || !Any(jobs, net, IsEnd)
    || (!test && Two(jobs, net, EndIconEnded))
    || (!test && Any(jobs, net, EndIconEnded)
        && (Any(jobs, net, IsReady) || Any(jobs, net, IsRunning) || Any(jobs, net, HasFailed)))
  }

  ghost function Judged(jobs: Jobs, net: NetId, test: bool): NetStatus
  {
    if Broken(jobs, net, test) then NET_ENDERR
    else if if test then All(jobs, net, HasEnded) else Any(jobs, net, EndIconEnded) then NET_END
    else if Any(jobs, net, HasFailed) then NET_RUNERR
    else NET_RUN
  }

  // The same, told by the icons. An icon that has failed and may not go on:
  ghost predicate FailedFor(jobs: Jobs, net: NetId, x: JobId)
  {
    In(jobs, x, net) && (jobs[x].status == RUNERR || jobs[x].status == ABORT) && !jobs[x].cont
  }

  ghost predicate Reached(jobs: Jobs, net: NetId, x: JobId)
  {
    In(jobs, x, net) && jobs[x].icon == EndIcon && jobs[x].status == END
  }

  // Errors: an icon in error, no start icon or several, no END icon, and outside
  // test mode two END icons that have ended, or one while others are at work or failed.
  ghost predicate InError(jobs: Jobs, net: NetId, test: bool)
  {
    || (exists x :: In(jobs, x, net) && jobs[x].status == ENDERR)
    || !(exists x :: In(jobs, x, net) && jobs[x].icon == StartIcon
                     && forall y :: In(jobs, y, net) && jobs[y].icon == StartIcon ==> y == x)
    || !(exists x :: In(jobs, x, net) && jobs[x].icon == EndIcon)
    || (!test && exists x, y :: Reached(jobs, net, x) && Reached(jobs, net, y) && x != y)
    || (!test && (exists x :: Reached(jobs, net, x))
        && exists x :: FailedFor(jobs, net, x) || (In(jobs, x, net) && (jobs[x].status == READY || jobs[x].status == RUN)))
  }

  // An END icon has ended; in test mode all icons have, or failed and may go on.
  ghost predicate Finished(jobs: Jobs, net: NetId, test: bool)
  {
    if test
    then forall x :: In(jobs, x, net) ==>
           jobs[x].status == END || ((jobs[x].status == RUNERR || jobs[x].status == ABORT) && jobs[x].cont)
    else exists x :: Reached(jobs, net, x)
  }

  // ENDERR exactly on errors, END exactly then; otherwise
  // RUNERR exactly when an icon has failed, and RUN exactly when none has.
  ghost predicate Reflects(jobs: Jobs, net: NetId, test: bool, status: NetStatus)
  {
    && (status == NET_ENDERR <==> InError(jobs, net, test))
    && (status == NET_END <==> !InError(jobs, net, test) && Finished(jobs, net, test))
    && (status != NET_ENDERR && status != NET_END ==>
          status == if exists x :: FailedFor(jobs, net, x) then NET_RUNERR else NET_RUN)
  }

  lemma OneIs(jobs: Jobs, net: NetId)
    ensures One(jobs, net, IsStart) <==>
      exists x :: In(jobs, x, net) && jobs[x].icon == StartIcon
                  && forall y :: In(jobs, y, net) && jobs[y].icon == StartIcon ==> y == x
  {
    if Any(jobs, net, IsStart) && !Two(jobs, net, IsStart) {
      var x :| In(jobs, x, net) && IsStart(jobs[x]);
      assert forall y :: In(jobs, y, net) && jobs[y].icon == StartIcon ==> IsStart(jobs[y]);
    }
    if x :| In(jobs, x, net) && jobs[x].icon == StartIcon
            && forall y :: In(jobs, y, net) && jobs[y].icon == StartIcon ==> y == x {
      assert IsStart(jobs[x]);
    }
  }

  lemma AnyIs(jobs: Jobs, net: NetId)
    ensures Any(jobs, net, EndedInError) <==> exists x :: In(jobs, x, net) && jobs[x].status == ENDERR
    ensures Any(jobs, net, IsEnd) <==> exists x :: In(jobs, x, net) && jobs[x].icon == EndIcon
    ensures Any(jobs, net, EndIconEnded) <==> exists x :: Reached(jobs, net, x)
    ensures Any(jobs, net, HasFailed) <==> exists x :: FailedFor(jobs, net, x)
    ensures Two(jobs, net, EndIconEnded) <==> exists x, y :: Reached(jobs, net, x) && Reached(jobs, net, y) && x != y
  {
    forall x | In(jobs, x, net)
      ensures EndedInError(jobs[x]) <==> jobs[x].status == ENDERR
      ensures IsEnd(jobs[x]) <==> jobs[x].icon == EndIcon
      ensures EndIconEnded(jobs[x]) <==> Reached(jobs, net, x)
      ensures HasFailed(jobs[x]) <==> FailedFor(jobs, net, x)
    {
    }
  }

  lemma BrokenIs(jobs: Jobs, net: NetId, test: bool)
    ensures Broken(jobs, net, test) <==> InError(jobs, net, test)
  {
    OneIs(jobs, net);
    AnyIs(jobs, net);
    forall x | In(jobs, x, net)
      ensures IsReady(jobs[x]) || IsRunning(jobs[x]) || HasFailed(jobs[x])
         <==> FailedFor(jobs, net, x) || jobs[x].status == READY || jobs[x].status == RUN
    {
    }
  }

  lemma JudgedReflects(jobs: Jobs, net: NetId, test: bool)
    ensures Reflects(jobs, net, test, Judged(jobs, net, test))
  {
    BrokenIs(jobs, net, test);
    AnyIs(jobs, net);
    forall x | In(jobs, x, net)
      ensures HasEnded(jobs[x]) <==> jobs[x].status == END || ((jobs[x].status == RUNERR || jobs[x].status == ABORT) && jobs[x].cont)
    {
    }
  }

  // ---- the counting loop ----------------------------------------------------------------

  // select ... where inner_jobnet_id = net, in any order
  ghost predicate Rows(jobs: Jobs, net: NetId, rows: seq<JobId>)
  {
    && (forall i, j :: 0 <= i < j < |rows| ==> rows[i] != rows[j])
    && (forall x :: x in rows <==> In(jobs, x, net))
  }

  ghost predicate Known(jobs: Jobs, rows: seq<JobId>) { forall i :: 0 <= i < |rows| ==> rows[i] in jobs }

  // Of the first n rows.
  function CountOf(jobs: Jobs, rows: seq<JobId>, n: nat, has: Job -> bool): nat
    requires n <= |rows| && Known(jobs, rows)
  {
    if n == 0 then 0 else CountOf(jobs, rows, n - 1, has) + if has(jobs[rows[n-1]]) then 1 else 0
  }

  lemma {:induction false} CountSome(jobs: Jobs, rows: seq<JobId>, n: nat, has: Job -> bool)
    requires n <= |rows| && Known(jobs, rows)
    ensures CountOf(jobs, rows, n, has) > 0 <==> exists i :: 0 <= i < n && has(jobs[rows[i]])
    ensures CountOf(jobs, rows, n, has) <= n
    ensures CountOf(jobs, rows, n, has) == n <==> forall i :: 0 <= i < n ==> has(jobs[rows[i]])
  {
    if n > 0 {
      CountSome(jobs, rows, n - 1, has);
    }
  }

  lemma {:induction false} CountTwo(jobs: Jobs, rows: seq<JobId>, n: nat, has: Job -> bool)
    requires n <= |rows| && Known(jobs, rows)
    ensures CountOf(jobs, rows, n, has) > 1 <==> exists i, j :: 0 <= i < j < n && has(jobs[rows[i]]) && has(jobs[rows[j]])
  {
    if n > 0 {
      CountTwo(jobs, rows, n - 1, has);
      CountSome(jobs, rows, n - 1, has);
    }
  }

  lemma RowsAreIcons(jobs: Jobs, net: NetId, rows: seq<JobId>)
    requires Rows(jobs, net, rows)
    ensures forall i :: 0 <= i < |rows| ==> In(jobs, rows[i], net)
    ensures forall x :: In(jobs, x, net) ==> exists i :: 0 <= i < |rows| && rows[i] == x
  {
    forall i | 0 <= i < |rows| ensures In(jobs, rows[i], net) {
      assert rows[i] in rows;
    }
    forall x | In(jobs, x, net) ensures exists i :: 0 <= i < |rows| && rows[i] == x {
      assert x in rows;
    }
  }

  lemma TwoRows(jobs: Jobs, net: NetId, rows: seq<JobId>, has: Job -> bool)
    requires Rows(jobs, net, rows) && Known(jobs, rows)
    ensures Two(jobs, net, has) <==> exists i, j :: 0 <= i < j < |rows| && has(jobs[rows[i]]) && has(jobs[rows[j]])
  {
    RowsAreIcons(jobs, net, rows);
    if Two(jobs, net, has) {
      var x, y :| In(jobs, x, net) && In(jobs, y, net) && x != y && has(jobs[x]) && has(jobs[y]);
      var i :| 0 <= i < |rows| && rows[i] == x;
      var j :| 0 <= j < |rows| && rows[j] == y;
      assert if i < j then has(jobs[rows[i]]) && has(jobs[rows[j]]) else has(jobs[rows[j]]) && has(jobs[rows[i]]);
    }
  }

  lemma CountIs(jobs: Jobs, net: NetId, rows: seq<JobId>, has: Job -> bool)
    requires Rows(jobs, net, rows) && Known(jobs, rows)
    ensures CountOf(jobs, rows, |rows|, has) > 0 <==> Any(jobs, net, has)
    ensures CountOf(jobs, rows, |rows|, has) > 1 <==> Two(jobs, net, has)
    ensures CountOf(jobs, rows, |rows|, has) == |rows| <==> All(jobs, net, has)
  {
    CountSome(jobs, rows, |rows|, has);
    CountTwo(jobs, rows, |rows|, has);
    RowsAreIcons(jobs, net, rows);
    TwoRows(jobs, net, rows, has);
  }

  // jajobnet_run leaves things alone, or sets the jobnet and its icon.
  datatype Poll = Nothing | Sync(status: NetStatus, timeout: bool, end: JobId)

  ghost predicate Timely(jobs: Jobs, net: NetId, late: set<JobId>, timeout: bool)
  {
    timeout <==> exists x :: In(jobs, x, net) && x in late
  }

  datatype Tally = Tally(starts: nat, ends: nat, ready: nat, run: nat, failed: nat, ended: nat, endsEnded: nat)

  function TallyOf(jobs: Jobs, rows: seq<JobId>, n: nat): Tally
    requires n <= |rows| && Known(jobs, rows)
  {
    Tally(CountOf(jobs, rows, n, IsStart), CountOf(jobs, rows, n, IsEnd), CountOf(jobs, rows, n, IsReady),
          CountOf(jobs, rows, n, IsRunning), CountOf(jobs, rows, n, HasFailed), CountOf(jobs, rows, n, HasEnded),
          CountOf(jobs, rows, n, EndIconEnded))
  }

  // What the counts of all rows mean.
  lemma TallyMeans(jobs: Jobs, net: NetId, rows: seq<JobId>)
    requires Rows(jobs, net, rows) && Known(jobs, rows)
    ensures var c := TallyOf(jobs, rows, |rows|);
      && (c.starts == 1 <==> One(jobs, net, IsStart)) && (c.ends > 0 <==> Any(jobs, net, IsEnd))
      && (c.ready > 0 <==> Any(jobs, net, IsReady)) && (c.run > 0 <==> Any(jobs, net, IsRunning))
      && (c.failed > 0 <==> Any(jobs, net, HasFailed)) && (c.ended == |rows| <==> All(jobs, net, HasEnded))
      && (c.endsEnded > 0 <==> Any(jobs, net, EndIconEnded)) && (c.endsEnded > 1 <==> Two(jobs, net, EndIconEnded))
  {
    CountIs(jobs, net, rows, IsStart);
    CountIs(jobs, net, rows, IsEnd);
    CountIs(jobs, net, rows, IsReady);
    CountIs(jobs, net, rows, IsRunning);
    CountIs(jobs, net, rows, HasFailed);
    CountIs(jobs, net, rows, HasEnded);
    CountIs(jobs, net, rows, EndIconEnded);
  }

  lemma TwoSoFar(jobs: Jobs, net: NetId, rows: seq<JobId>, n: nat)
    requires Rows(jobs, net, rows) && Known(jobs, rows) && n <= |rows| && CountOf(jobs, rows, n, EndIconEnded) > 1
    ensures Two(jobs, net, EndIconEnded)
  {
    CountTwo(jobs, rows, n, EndIconEnded);
    var a, b :| 0 <= a < b < n && EndIconEnded(jobs[rows[a]]) && EndIconEnded(jobs[rows[b]]);
    assert rows[a] in rows && rows[b] in rows && rows[a] != rows[b];
  }

  // The columns of one row; a row in error is not counted.
  method CountRow(j: Job, c0: Tally) returns (c: Tally)
    requires j.status != ENDERR
    ensures c.starts == c0.starts + (if IsStart(j) then 1 else 0) && c.ends == c0.ends + (if IsEnd(j) then 1 else 0)
    ensures c.ready == c0.ready + (if IsReady(j) then 1 else 0) && c.run == c0.run + (if IsRunning(j) then 1 else 0)
    ensures c.failed == c0.failed + (if HasFailed(j) then 1 else 0) && c.ended == c0.ended + (if HasEnded(j) then 1 else 0)
    ensures c.endsEnded == c0.endsEnded + if EndIconEnded(j) then 1 else 0
  {
    c := c0;
    if j.icon.StartIcon? { c := c.(starts := c.starts + 1); }
    if j.icon.EndIcon? { c := c.(ends := c.ends + 1); }
    match j.status {
      case BEGIN =>
      case READY => c := c.(ready := c.ready + 1);
      case RUN => c := c.(run := c.run + 1);
      case END =>
        c := c.(ended := c.ended + 1);
        if j.icon.EndIcon? { c := c.(endsEnded := c.endsEnded + 1); }
      case RUNERR | ABORT =>
        c := if j.cont then c.(ended := c.ended + 1) else c.(failed := c.failed + 1);
    }
  }

  // After n rows, none of them in error.
  ghost predicate Read(jobs: Jobs, net: NetId, rows: seq<JobId>, n: nat, flag: bool, c: Tally, test: bool, end: JobId)
    requires n <= |rows| && Known(jobs, rows)
  {
    && c == TallyOf(jobs, rows, n) && (forall m :: 0 <= m < n ==> jobs[rows[m]].status != ENDERR)
    && (n > 0 ==> test == flag && (test || c.endsEnded <= 1))
    && (c.endsEnded > 0 ==> In(jobs, end, net) && EndIconEnded(jobs[end]))
  }

  ghost predicate LateSoFar(rows: seq<JobId>, n: nat, late: set<JobId>)
    requires n <= |rows|
  {
    exists m :: 0 <= m < n && rows[m] in late
  }

  lemma LateRows(jobs: Jobs, net: NetId, rows: seq<JobId>, late: set<JobId>)
    requires Rows(jobs, net, rows)
    ensures Timely(jobs, net, late, LateSoFar(rows, |rows|, late))
  {
    forall i | 0 <= i < |rows| ensures In(jobs, rows[i], net) {
      assert rows[i] in rows;
    }
  }

  lemma NoError(jobs: Jobs, net: NetId, rows: seq<JobId>)
    requires Rows(jobs, net, rows) && Known(jobs, rows) && forall m :: 0 <= m < |rows| ==> jobs[rows[m]].status != ENDERR
    ensures !Any(jobs, net, EndedInError)
  {
    assert forall x :: In(jobs, x, net) ==> x in rows;
  }

  // The rows are read once; an icon in error, or a second END icon that has ended,
  // stops the reading.
  method CountRows(jobs: Jobs, net: NetId, rows: seq<JobId>, late: set<JobId>, ghost flag: bool)
    returns (error: bool, c: Tally, timeouts: nat, test: bool, end: JobId)
    requires Rows(jobs, net, rows) && Known(jobs, rows) && TestFlag(jobs, net, flag)
    ensures error ==> Any(jobs, net, EndedInError) || (!flag && Two(jobs, net, EndIconEnded))
    ensures !error ==> Read(jobs, net, rows, |rows|, flag, c, test, end) && (timeouts > 0 <==> LateSoFar(rows, |rows|, late))
  {
    error, c, timeouts, test, end := false, Tally(0, 0, 0, 0, 0, 0, 0), 0, false, 0;
    for i := 0 to |rows|
      invariant !error && Read(jobs, net, rows, i, flag, c, test, end)
      invariant timeouts > 0 <==> LateSoFar(rows, i, late)
    {
      var j := jobs[rows[i]];
      assert rows[i] in rows && In(jobs, rows[i], net);
      test := j.test;
      if rows[i] in late { timeouts := timeouts + 1; }
      if j.status == ENDERR {
        assert EndedInError(jobs[rows[i]]);
        error := true;
        return;
      }
      c := CountRow(j, c);
      assert c == TallyOf(jobs, rows, i + 1);
      if j.status == END && j.icon.EndIcon? { end := rows[i]; }
      if c.endsEnded > 1 && !test {
        TwoSoFar(jobs, net, rows, i + 1);
        error := true;
        return;
      }
    }
  }

  function StatusOf(c: Tally, rows: nat, test: bool): NetStatus
  {
    if c.starts != 1 || c.ends == 0 || (!test && c.endsEnded > 0 && (c.ready > 0 || c.run > 0 || c.failed > 0)) then NET_ENDERR
    else if if test then c.ended == rows else c.endsEnded > 0 then NET_END
    else if c.failed > 0 then NET_RUNERR
    else NET_RUN
  }

  lemma StatusIsJudged(jobs: Jobs, net: NetId, rows: seq<JobId>, flag: bool, c: Tally, test: bool, end: JobId)
    requires Rows(jobs, net, rows) && Known(jobs, rows) && Read(jobs, net, rows, |rows|, flag, c, test, end)
    ensures Judged(jobs, net, flag) == StatusOf(c, |rows|, test)
  {
    TallyMeans(jobs, net, rows);
    NoError(jobs, net, rows);
  }

  // jajobnet_run, called while the jobnet is RUN or RUNERR.
  method RunJobnet(jobs: Jobs, net: NetId, rows: seq<JobId>, late: set<JobId>, ghost flag: bool, status: NetStatus, timeout: bool)
    returns (r: Poll)
    requires Rows(jobs, net, rows) && TestFlag(jobs, net, flag) && (status == NET_RUN || status == NET_RUNERR)
    ensures Judged(jobs, net, flag) == NET_ENDERR ==> r.Sync? && r.status == NET_ENDERR && !r.timeout
    ensures Judged(jobs, net, flag) != NET_ENDERR ==>
      if r.Nothing? then Judged(jobs, net, flag) == status && Timely(jobs, net, late, timeout)
      else r.status == Judged(jobs, net, flag) && Timely(jobs, net, late, r.timeout) && (r.status != status || r.timeout != timeout)
    ensures r.Sync? && r.status == NET_END && !flag ==> In(jobs, r.end, net) && EndIconEnded(jobs[r.end])
    ensures Reflects(jobs, net, flag, if r.Nothing? then status else r.status)
  {
    JudgedReflects(jobs, net, flag);
    assert Known(jobs, rows) by {
      assert forall i :: 0 <= i < |rows| ==> rows[i] in rows;
    }
    var error, c, timeouts, test, end := CountRows(jobs, net, rows, late, flag);
    if error {
      return Sync(NET_ENDERR, false, end);
    }
    StatusIsJudged(jobs, net, rows, flag, c, test, end);
    LateRows(jobs, net, rows, late);
    if c.starts != 1 || c.ends == 0 {
      return Sync(NET_ENDERR, false, end);
    }
    var renew, now, nowTimeout := false, status, timeout;
    if !test && c.endsEnded > 0 && (c.ready > 0 || c.run > 0 || c.failed > 0) {
      return Sync(NET_ENDERR, false, end);
    }
    if if test then c.ended == |rows| else c.endsEnded > 0 {
      renew, now := true, NET_END;
    } else if status == NET_RUN && c.failed > 0 {
      renew, now := true, NET_RUNERR;
    } else if status == NET_RUNERR && c.failed == 0 {
      renew, now := true, NET_RUN;
    }
    if timeout != (timeouts > 0) {
      renew, nowTimeout := true, timeouts > 0;
    }
    r := if renew then Sync(now, nowTimeout, end) else Nothing;
  }
}
