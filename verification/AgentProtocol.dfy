// The agent's listeners and its executive, interleaved one atomic step at a
// time: a listener inserts a BEGIN row and then raises the request flag
// (ja_agent_begin in src/jobarg_agent/jaagent.c); the executive lowers the flag,
// scans and sweeps its list (src/jobarg_agent/jajobobjectlist.c); the agent may
// be restarted at any point.
module AgentProtocol {
  import opened AgentJobs

  // A listener that has inserted its row, one that has found no flag, one that
  // could not create it, and one that has then seen its row at BEGIN.
  datatype Listener = Inserted(id: nat) | Creating(id: nat) | Failing(id: nat) | Withdrawing(id: nat)

  // What became of the row of a listener that withdraws it.
  datatype Withdrawal = Closed | Deleted | Neither

  // Where the executive is; Started is inside ja_agent_run, before the row is
  // updated.
  datatype Place = Idle | Found | Lowered | Sweeping(k: nat) | Started(k: nat, ran: bool)

  datatype World = World(rows: Table, flag: bool, list: seq<Job>, place: Place, listeners: map<nat, Listener>)

  datatype Step =
    | Submit(l: nat, id: nat)      // ja_jobdb_insert
    | TestFlag(l: nat)
    | CreateFlag(l: nat)
    | FailFlag(l: nat)             // the flag cannot be created
    | CheckRow(l: nat)
    | Withdraw(l: nat, how: Withdrawal)
    | FindFlag                     // is there a request?
    | LowerFlag(removed: bool)
    | Scan(cursor: seq<nat>)
    | Launch(ran: bool)
    | Record                       // the row after a launch
    | CheckEnd(check: Check)
    | Send(sent: bool)
    | Drop                         // a node in CLOSE is taken out
    | EndSweep
    | ChildEnds(id: nat)           // a launched process reports its own failure
    | Purge(id: nat)               // a CLOSE row is removed from the history
    | Restart(cursor: seq<nat>)

  // The sweep stands at a node with this status.
  predicate Visits(w: World, status: Status)
  {
    w.place.Sweeping? && w.place.k < |w.list| && w.list[w.place.k].status == status
  }

  ghost predicate Enabled(w: World, s: Step)
  {
    match s
    case Submit(l, _) => l !in w.listeners
    case TestFlag(l) => l in w.listeners && w.listeners[l].Inserted?
    case CreateFlag(l) => l in w.listeners && w.listeners[l].Creating?
    case FailFlag(l) => l in w.listeners && w.listeners[l].Creating?
    case CheckRow(l) => l in w.listeners && w.listeners[l].Failing?
    case Withdraw(l, _) => l in w.listeners && w.listeners[l].Withdrawing?
    case FindFlag => w.place.Idle?
    case LowerFlag(_) => w.place.Found?
    case Scan(cursor) => w.place.Lowered? && Answers(w.rows, cursor, {BEGIN})
    case Launch(_) => Visits(w, BEGIN)
    case Record => w.place.Started? && w.place.k < |w.list|
    case CheckEnd(_) => Visits(w, RUN)
    case Send(_) => Visits(w, END)
    case Drop => Visits(w, CLOSE)
    case EndSweep => w.place.Sweeping? && w.place.k == |w.list|
    case ChildEnds(id) => id in w.rows && w.rows[id].status == RUN
    case Purge(id) => id in w.rows && w.rows[id].status == CLOSE
    case Restart(cursor) => Answers(w.rows, cursor, {BEGIN, RUN, END})
  }

  predicate Waiting(rows: Table, id: nat) { id in rows && rows[id].status == BEGIN }

  function Withdrawn(rows: Table, id: nat, how: Withdrawal): Table
  {
    match how
    case Closed => rows[id := Row(CLOSE, false)]
    case Deleted => rows - {id}
    case Neither => rows
  }

  function Moved(w: World, j: Job, rows: Table, k: nat): World
    requires (w.place.Sweeping? || w.place.Started?) && w.place.k < |w.list|
  {
    w.(rows := rows, list := w.list[w.place.k := j], place := Sweeping(k))
  }

  function Next(w: World, s: Step, limit: int): World
    requires Enabled(w, s)
  {
    match s
    case Submit(l, id) =>
      if Accepts(w.rows, id) then w.(rows := w.rows[id := Row(BEGIN, false)], listeners := w.listeners[l := Inserted(id)]) else w
    case TestFlag(l) =>
      w.(listeners := if w.flag then w.listeners - {l} else w.listeners[l := Creating(w.listeners[l].id)])
    case CreateFlag(l) => w.(flag := true, listeners := w.listeners - {l})
    case FailFlag(l) => w.(listeners := w.listeners[l := Failing(w.listeners[l].id)])
    case CheckRow(l) =>
      var id := w.listeners[l].id;
      w.(listeners := if Waiting(w.rows, id) then w.listeners[l := Withdrawing(id)] else w.listeners - {l})
    case Withdraw(l, how) => w.(rows := Withdrawn(w.rows, w.listeners[l].id, how), listeners := w.listeners - {l})
    case FindFlag => w.(place := if w.flag then Found else Sweeping(0))
    case LowerFlag(removed) => w.(flag := w.flag && !removed, place := Lowered)
    case Scan(cursor) => w.(list := Added(w.list, w.rows, cursor), place := Sweeping(0))
    case Launch(ran) => w.(place := Started(w.place.k, ran))
    case Record =>
      var j := Ran(w.list[w.place.k], w.place.ran);
      Moved(w, j, Stored(w.rows, j), if w.place.ran then w.place.k else w.place.k + 1)
    case CheckEnd(check) =>
      var j := Ended(w.list[w.place.k], w.rows, check);
      Moved(w, j, if check.Pending? then w.rows else Stored(w.rows, j), if check.Loaded? then w.place.k else w.place.k + 1)
    case Send(sent) =>
      var j := AgentJobs.Closed(w.list[w.place.k], sent, limit);
      Moved(w, j, StoredIfClosed(w.rows, j), if sent then w.place.k else w.place.k + 1)
    case Drop => w.(list := w.list[..w.place.k] + w.list[w.place.k+1..])
    case EndSweep => w.(place := Idle)
    case ChildEnds(id) => w.(rows := w.rows[id := Row(END, true)])
    case Purge(id) => w.(rows := w.rows - {id})
    case Restart(cursor) => w.(list := Listed(w.rows, cursor), place := Idle, listeners := map[])
  }

  ghost predicate IsRun(states: seq<World>, steps: seq<Step>, limit: int)
  {
    && |states| == |steps| + 1
    && forall i :: 0 <= i < |steps| ==> Enabled(states[i], steps[i]) && states[i+1] == Next(states[i], steps[i], limit)
  }

  // ---- what every step keeps ------------------------------------------------------

  // A job that is not CLOSE has a row that is not behind it, and not CLOSE.
  predicate Matches(j: Job, rows: Table)
  {
    j.status != CLOSE ==>
      && j.jobid in rows
      && (rows[j.jobid].status == j.status || (j.status == RUN && rows[j.jobid].status == END))
  }

  predicate Sound(w: World)
  {
    && Distinct(w.list)
    && (forall i :: 0 <= i < |w.list| ==> Matches(w.list[i], w.rows))
    && (w.place.Sweeping? ==> w.place.k <= |w.list|)
    && (w.place.Started? ==> w.place.k < |w.list| && w.list[w.place.k].status == BEGIN)
  }

  lemma ScanSound(w: World, s: Step, limit: int)
    requires Sound(w) && Enabled(w, s) && s.Scan?
    ensures Sound(Next(w, s, limit))
  {
    ScanIsExact(w.list, w.rows, s.cursor);
    var now := Added(w.list, w.rows, s.cursor);
    forall i | 0 <= i < |now| ensures Matches(now[i], w.rows) {
      if i < |w.list| {
        assert now[i] == now[..|w.list|][i];
      }
    }
  }

  predicate Live(list: seq<Job>, id: nat) { exists i :: 0 <= i < |list| && list[i].jobid == id && list[i].status != CLOSE }

  // A row is withdrawn only while the executive has no job of it in hand.
  predicate Safe(w: World, s: Step)
  {
    s.Withdraw? && !s.how.Neither? && s.l in w.listeners ==> !Live(w.list, w.listeners[s.l].id)
  }

  lemma WithdrawSound(w: World, id: nat, how: Withdrawal)
    requires Sound(w) && !how.Neither?
    ensures forall l :: Sound(w.(rows := Withdrawn(w.rows, id, how), listeners := l)) <==> !Live(w.list, id)
  {
    if i :| 0 <= i < |w.list| && w.list[i].jobid == id && w.list[i].status != CLOSE {
      assert !Matches(w.list[i], Withdrawn(w.rows, id, how));
    }
  }

  lemma RestartSound(w: World, cursor: seq<nat>, limit: int)
    requires Enabled(w, Restart(cursor))
    ensures Sound(Next(w, Restart(cursor), limit))
  {
    RestartIsExact(w.rows, cursor);
    var now := Listed(w.rows, cursor);
    assert forall i :: 0 <= i < |now| ==> now[i] in now;
  }

  // The node at k moves on, and no row but its own changes.
  lemma MovedSound(w: World, j: Job, rows: Table, k: nat)
    requires Sound(w) && (w.place.Sweeping? || w.place.Started?) && w.place.k < |w.list| && k <= |w.list|
    requires j.jobid == w.list[w.place.k].jobid && Matches(j, rows)
    requires forall id :: id != j.jobid ==> (id in rows <==> id in w.rows) && (id in rows ==> rows[id] == w.rows[id])
    ensures Sound(Moved(w, j, rows, k))
  {
    var now := w.list[w.place.k := j];
    forall i | 0 <= i < |now| ensures Matches(now[i], rows) && (i != w.place.k ==> now[i].jobid != j.jobid) {
      if i != w.place.k {
        assert now[i] == w.list[i] && Matches(w.list[i], w.rows);
      }
    }
  }

  lemma RecordSound(w: World, limit: int)
    requires Sound(w) && Enabled(w, Record)
    ensures Sound(Next(w, Record, limit))
  {
    var j := Ran(w.list[w.place.k], w.place.ran);
    assert Matches(w.list[w.place.k], w.rows);
    MovedSound(w, j, Stored(w.rows, j), if w.place.ran then w.place.k else w.place.k + 1);
  }

  lemma CheckSound(w: World, check: Check, limit: int)
    requires Sound(w) && Enabled(w, CheckEnd(check))
    ensures Sound(Next(w, CheckEnd(check), limit))
  {
    var j := Ended(w.list[w.place.k], w.rows, check);
    assert Matches(w.list[w.place.k], w.rows);
    MovedSound(w, j, if check.Pending? then w.rows else Stored(w.rows, j), if check.Loaded? then w.place.k else w.place.k + 1);
  }

  lemma SendSound(w: World, sent: bool, limit: int)
    requires Sound(w) && Enabled(w, Send(sent))
    ensures Sound(Next(w, Send(sent), limit))
  {
    var j := AgentJobs.Closed(w.list[w.place.k], sent, limit);
    assert Matches(w.list[w.place.k], w.rows);
    MovedSound(w, j, StoredIfClosed(w.rows, j), if sent then w.place.k else w.place.k + 1);
  }

  // Steps that change rows or listeners only.
  lemma RowsSound(w: World, s: Step, limit: int)
    requires Sound(w) && Enabled(w, s)
    requires s.Submit? || s.TestFlag? || s.CreateFlag? || s.FailFlag? || s.CheckRow? || s.ChildEnds? || s.Purge?
             || (s.Withdraw? && s.how.Neither?)
    ensures Sound(Next(w, s, limit))
  {
  }

  // Every step keeps the rows and jobs in agreement, except exactly a withdrawal
  // of a row whose job the executive has in hand.
  lemma SoundStep(w: World, s: Step, limit: int)
    requires Sound(w) && Enabled(w, s)
    ensures Sound(Next(w, s, limit)) <==> Safe(w, s)
  {
    match s
    case Withdraw(l, how) =>
      if how.Neither? {
        RowsSound(w, s, limit);
      } else {
        WithdrawSound(w, w.listeners[l].id, how);
      }
    case Scan(_) => ScanSound(w, s, limit);
    case Restart(cursor) => RestartSound(w, cursor, limit);
    case FindFlag =>
    case LowerFlag(_) =>
    case Launch(_) =>
    case Record => RecordSound(w, limit);
    case CheckEnd(check) => CheckSound(w, check, limit);
    case Send(sent) => SendSound(w, sent, limit);
    case Drop =>
    case EndSweep =>
    case _ => RowsSound(w, s, limit);
  }

  // ---- no lost wake-up --------------------------------------------------------------

  // A node that stays in CLOSE after its result could not be sent.
  predicate Leftover(list: seq<Job>, id: nat) { exists i :: 0 <= i < |list| && list[i].jobid == id && list[i].status == CLOSE }

  ghost predicate Announcing(w: World, id: nat) { exists l :: l in w.listeners && w.listeners[l].id == id }

  // Every BEGIN row has a live node, or the flag is up, or the executive has
  // lowered it and is about to scan, or the row's listener has yet to raise it.
  ghost predicate Covered(w: World)
  {
    forall id :: Waiting(w.rows, id) ==> Live(w.list, id) || w.flag || w.place.Lowered? || Announcing(w, id)
  }

  // The scan skips no BEGIN row for good: a row whose jobid has a leftover node
  // is still to be announced.
  ghost predicate ScanKeeps(w: World)
  {
    w.flag || forall id :: Waiting(w.rows, id) && Leftover(w.list, id) ==> Announcing(w, id)
  }

  // After a scan a BEGIN row has a live node exactly when it has no leftover one.
  lemma ScanFinds(w: World, cursor: seq<nat>, id: nat)
    requires Sound(w) && Enabled(w, Scan(cursor)) && Waiting(w.rows, id)
    ensures Live(Added(w.list, w.rows, cursor), id) <==> !Leftover(w.list, id)
  {
    ScanIsExact(w.list, w.rows, cursor);
    var now := Added(w.list, w.rows, cursor);
    assert id in cursor && HasId(now, id);
    var i :| 0 <= i < |now| && now[i].jobid == id;
    if i < |w.list| {
      assert now[i] == now[..|w.list|][i] == w.list[i];
      assert w.list[i].status == CLOSE <==> Leftover(w.list, id);
    } else {
      assert now[i].status == BEGIN;
      forall n | 0 <= n < |w.list| ensures w.list[n].jobid != id {
        assert now[n] == now[..|w.list|][n];
      }
    }
  }

  lemma ScanCovers(w: World, cursor: seq<nat>, limit: int)
    requires Sound(w) && Enabled(w, Scan(cursor))
    ensures Covered(Next(w, Scan(cursor), limit)) <==> ScanKeeps(w)
  {
    var next := Next(w, Scan(cursor), limit);
    forall id | Waiting(w.rows, id)
      ensures Live(next.list, id) <==> !Leftover(w.list, id)
      ensures Announcing(next, id) <==> Announcing(w, id)
    {
      ScanFinds(w, cursor, id);
    }
  }

  lemma UpdateLive(list: seq<Job>, k: nat, j: Job, id: nat)
    requires Distinct(list) && k < |list| && j.jobid == list[k].jobid
    ensures Live(list[k := j], id) <==> if id == j.jobid then j.status != CLOSE else Live(list, id)
  {
    var now := list[k := j];
    assert now[k] == j;
    if id == j.jobid {
    } else if Live(list, id) {
      var i :| 0 <= i < |list| && list[i].jobid == id && list[i].status != CLOSE;
      assert now[i] == list[i];
    }
  }

  lemma DropLive(list: seq<Job>, k: nat, id: nat)
    requires k < |list| && list[k].status == CLOSE && Live(list, id)
    ensures Live(list[..k] + list[k+1..], id)
  {
    var now := list[..k] + list[k+1..];
    var i :| 0 <= i < |list| && list[i].jobid == id && list[i].status != CLOSE;
    assert now[if i < k then i else i - 1] == list[i];
  }

  // Steps of the sweep change only the row and node they stand at.
  lemma SweepCovers(w: World, s: Step, limit: int)
    requires Sound(w) && Covered(w) && Enabled(w, s) && (s.Record? || s.CheckEnd? || s.Send? || s.Drop?)
    ensures Covered(Next(w, s, limit))
  {
    var next, k := Next(w, s, limit), w.place.k;
    forall id | Waiting(next.rows, id) ensures Live(next.list, id) || next.flag || Announcing(next, id) {
      if s.Drop? {
        if Live(w.list, id) {
          DropLive(w.list, k, id);
        }
      } else {
        UpdateLive(w.list, k, next.list[k], id);
      }
      assert Announcing(w, id) ==> Announcing(next, id);
    }
  }

  lemma ListenerCovers(w: World, s: Step, limit: int)
    requires Sound(w) && Covered(w) && Enabled(w, s) && (s.Submit? || s.TestFlag? || s.CreateFlag? || s.FailFlag?)
    ensures Covered(Next(w, s, limit))
  {
    var next := Next(w, s, limit);
    forall id | Waiting(next.rows, id) ensures Live(next.list, id) || next.flag || next.place.Lowered? || Announcing(next, id) {
      if s.Submit? && Accepts(w.rows, s.id) && s.id == id {
        assert next.listeners[s.l].id == id;
      } else if Announcing(w, id) {
        var l :| l in w.listeners && w.listeners[l].id == id;
        if !next.flag {
          assert l in next.listeners && next.listeners[l].id == id;
        }
      }
    }
  }

  // A row stays announced although its listener can neither announce nor withdraw it.
  ghost predicate AnnouncedOtherwise(w: World, l: nat)
    requires l in w.listeners
  {
    var id := w.listeners[l].id;
    Waiting(w.rows, id) ==>
      Live(w.list, id) || w.flag || w.place.Lowered? || exists k :: k in w.listeners && k != l && w.listeners[k].id == id
  }

  lemma OthersAnnounce(w: World, l: nat, id: nat)
    requires l in w.listeners && Announcing(w, id) && w.listeners[l].id != id
    ensures Announcing(w.(listeners := w.listeners - {l}), id)
  {
    var k :| k in w.listeners && w.listeners[k].id == id;
    assert k in w.listeners - {l};
  }

  lemma WithdrawCovers(w: World, l: nat, how: Withdrawal, limit: int)
    requires Covered(w) && Enabled(w, Withdraw(l, how))
    ensures Covered(Next(w, Withdraw(l, how), limit)) <==> (how.Neither? ==> AnnouncedOtherwise(w, l))
  {
    var next, own := Next(w, Withdraw(l, how), limit), w.listeners[l].id;
    forall id | id != own ensures Waiting(next.rows, id) <==> Waiting(w.rows, id)
      ensures Announcing(w, id) ==> Announcing(next, id)
    {
      if Announcing(w, id) {
        OthersAnnounce(w, l, id);
      }
    }
    if how.Neither? {
      if k :| k in w.listeners && k != l && w.listeners[k].id == own {
        assert k in next.listeners && next.listeners[k].id == own;
      }
      if Announcing(next, own) {
        var k :| k in next.listeners && next.listeners[k].id == own;
        assert k in w.listeners && k != l && w.listeners[k].id == own;
      }
    }
  }

  lemma CheckCovers(w: World, l: nat, limit: int)
    requires Covered(w) && Enabled(w, CheckRow(l))
    ensures Covered(Next(w, CheckRow(l), limit))
  {
    var next, own := Next(w, CheckRow(l), limit), w.listeners[l].id;
    forall id | Waiting(w.rows, id) && Announcing(w, id) ensures Announcing(next, id) {
      if Waiting(w.rows, own) {
        var k :| k in w.listeners && w.listeners[k].id == id;
        assert k in next.listeners && next.listeners[k].id == id;
      } else {
        OthersAnnounce(w, l, id);
      }
    }
  }

  lemma RestartCovers(w: World, s: Step, limit: int)
    requires Enabled(w, s) && s.Restart?
    ensures Covered(Next(w, s, limit))
  {
    RestartIsExact(w.rows, s.cursor);
    var now := Listed(w.rows, s.cursor);
    forall id | Waiting(w.rows, id) ensures Live(now, id) {
      assert Load(id, w.rows[id]) in now;
    }
  }

  // What a step needs to lose no wake-up: a scan must not skip a leftover jobid
  // whose row nobody will announce again, and a listener that can neither announce
  // nor withdraw its row must not be the last to know of it.
  ghost predicate Tells(w: World, s: Step)
  {
    && (s.Scan? ==> ScanKeeps(w))
    && (s.Withdraw? && s.how.Neither? && s.l in w.listeners ==> AnnouncedOtherwise(w, s.l))
  }

  // Exactly such steps lose one.
  lemma CoveredStep(w: World, s: Step, limit: int)
    requires Sound(w) && Covered(w) && Enabled(w, s)
    ensures Covered(Next(w, s, limit)) <==> Tells(w, s)
  {
    var next := Next(w, s, limit);
    match s
    case Scan(cursor) => ScanCovers(w, cursor, limit);
    case Record => SweepCovers(w, s, limit);
    case CheckEnd(_) => SweepCovers(w, s, limit);
    case Send(_) => SweepCovers(w, s, limit);
    case Drop => SweepCovers(w, s, limit);
    case Submit(_, _) => ListenerCovers(w, s, limit);
    case TestFlag(_) => ListenerCovers(w, s, limit);
    case CreateFlag(_) => ListenerCovers(w, s, limit);
    case FailFlag(_) => ListenerCovers(w, s, limit);
    case CheckRow(l) => CheckCovers(w, l, limit);
    case Withdraw(l, how) => WithdrawCovers(w, l, how, limit);
    case Restart(_) => RestartCovers(w, s, limit);
    case _ =>
      forall id | Waiting(next.rows, id) ensures Waiting(w.rows, id) && (Announcing(w, id) ==> Announcing(next, id)) {
      }
  }

  ghost predicate SafeUpTo(states: seq<World>, steps: seq<Step>, n: nat)
    requires n <= |steps| <= |states|
  {
    forall i :: 0 <= i < n ==> Safe(states[i], steps[i])
  }

  ghost predicate SoundUpTo(states: seq<World>, n: nat)
    requires n < |states|
  {
    forall i :: 0 <= i <= n ==> Sound(states[i])
  }

  // Over whole runs rows and jobs agree exactly as long as withdrawals are safe.
  lemma {:induction false} SoundRun(states: seq<World>, steps: seq<Step>, limit: int, n: nat)
    requires IsRun(states, steps, limit) && Sound(states[0]) && n <= |steps|
    ensures SoundUpTo(states, n) <==> SafeUpTo(states, steps, n)
  {
    if n > 0 {
      SoundRun(states, steps, limit, n - 1);
      assert SoundUpTo(states, n) <==> SoundUpTo(states, n - 1) && Sound(states[n]);
      assert SafeUpTo(states, steps, n) <==> SafeUpTo(states, steps, n - 1) && Safe(states[n-1], steps[n-1]);
      if SoundUpTo(states, n - 1) {
        SoundStep(states[n-1], steps[n-1], limit);
      }
    }
  }

  ghost predicate CoveredUpTo(states: seq<World>, n: nat)
    requires n < |states|
  {
    forall i :: 0 <= i <= n ==> Covered(states[i])
  }

  ghost predicate TellsUpTo(states: seq<World>, steps: seq<Step>, n: nat)
    requires n <= |steps| <= |states|
  {
    forall i :: 0 <= i < n ==> Tells(states[i], steps[i])
  }

  // Over whole runs of any listeners with one executive: no wake-up is ever lost
  // exactly when no step is of that kind.
  lemma {:induction false} NoLostWakeup(states: seq<World>, steps: seq<Step>, limit: int, n: nat)
    requires IsRun(states, steps, limit) && Sound(states[0]) && Covered(states[0]) && n <= |steps| && SafeUpTo(states, steps, n)
    ensures CoveredUpTo(states, n) <==> TellsUpTo(states, steps, n)
  {
    if n > 0 {
      NoLostWakeup(states, steps, limit, n - 1);
      assert CoveredUpTo(states, n) <==> CoveredUpTo(states, n - 1) && Covered(states[n]);
      assert TellsUpTo(states, steps, n) <==> TellsUpTo(states, steps, n - 1) && Tells(states[n-1], steps[n-1]);
      if CoveredUpTo(states, n - 1) {
        SoundRun(states, steps, limit, n - 1);
        assert Sound(states[n-1]);
        CoveredStep(states[n-1], steps[n-1], limit);
      }
    }
  }

  // A run that loses one: after the last retry the node stays in the list; the
  // jobid is submitted again, announced and skipped.
  function Losing(): seq<Step>
  {
    [Send(false), EndSweep, Submit(0, 7), TestFlag(0), CreateFlag(0), FindFlag, LowerFlag(true), Scan([7]), Drop, EndSweep]
  }

  function BeforeLoss(): World { World(map[7 := Row(END, false)], false, [Job(7, END, false, 0)], Sweeping(0), map[]) }

  function AfterLoss(): World { World(map[7 := Row(BEGIN, false)], false, [], Idle, map[]) }

  const CLOSED := Job(7, CLOSE, false, 1)
  const GONE := map[7 := Row(CLOSE, false)]
  const BACK := map[7 := Row(BEGIN, false)]

  // The worlds Losing passes through.
  function LosingWorlds(): seq<World>
  {
    [ BeforeLoss(),
      World(GONE, false, [CLOSED], Sweeping(1), map[]),
      World(GONE, false, [CLOSED], Idle, map[]),
      World(BACK, false, [CLOSED], Idle, map[0 := Inserted(7)]),
      World(BACK, false, [CLOSED], Idle, map[0 := Creating(7)]),
      World(BACK, true, [CLOSED], Idle, map[]),
      World(BACK, true, [CLOSED], Found, map[]),
      World(BACK, false, [CLOSED], Lowered, map[]),
      World(BACK, false, [CLOSED], Sweeping(0), map[]),
      World(BACK, false, [], Sweeping(0), map[]),
      AfterLoss() ]
  }

  ghost predicate LosingStep(i: nat)
    requires i < 10
  {
    var a, s := LosingWorlds()[i], Losing()[i];
    Enabled(a, s) && LosingWorlds()[i+1] == Next(a, s, 1)
  }

  lemma Submitted()
    ensures LosingStep(0) && LosingStep(1) && LosingStep(2)
  {
    assert BeforeLoss().rows[7 := Row(CLOSE, false)] == GONE;
    assert GONE[7 := Row(BEGIN, false)] == BACK;
  }

  lemma Announced()
    ensures LosingStep(3) && LosingStep(4) && LosingStep(5) && LosingStep(6)
  {
    assert map[0 := Inserted(7)][0 := Creating(7)] == map[0 := Creating(7)];
    assert map[0 := Creating(7)] - {0} == map[];
  }

  lemma Skipped()
    ensures LosingStep(7) && LosingStep(8) && LosingStep(9)
  {
    assert HasId([CLOSED], 7) by { assert [CLOSED][0].jobid == 7; }
    assert [7][..0] == [];
    assert Added([CLOSED], BACK, []) == [CLOSED];
    assert Added([CLOSED], BACK, [7]) == [CLOSED];
    assert Answers(BACK, [7], {BEGIN});
  }

  lemma LosingRun()
    ensures IsRun(LosingWorlds(), Losing(), 1)
  {
    Submitted();
    Announced();
    Skipped();
    assert forall i: nat :: i < 10 ==> LosingStep(i);
  }

  lemma LosesWakeup()
    ensures IsRun(LosingWorlds(), Losing(), 1) && LosingWorlds()[0] == BeforeLoss() && LosingWorlds()[10] == AfterLoss()
    ensures Sound(BeforeLoss()) && Covered(BeforeLoss()) && !Covered(AfterLoss())
  {
    LosingRun();
    assert Waiting(AfterLoss().rows, 7);
  }

  // A withdrawal that is not safe: while the listener of row 7 tries to create the
  // flag, another has raised it; the executive takes the job into its list, the row
  // is closed, and the jobid is accepted again while its process is being started.
  function Overtaken(): seq<Step>
  {
    [FailFlag(0), CheckRow(0), FindFlag, LowerFlag(true), Scan([7]), Withdraw(0, Closed), Launch(true), Submit(1, 7)]
  }

  const FRESH := Job(7, BEGIN, false, 0)

  function OvertakenWorlds(): seq<World>
  {
    [ World(BACK, true, [], Idle, map[0 := Creating(7)]),
      World(BACK, true, [], Idle, map[0 := Failing(7)]),
      World(BACK, true, [], Idle, map[0 := Withdrawing(7)]),
      World(BACK, true, [], Found, map[0 := Withdrawing(7)]),
      World(BACK, false, [], Lowered, map[0 := Withdrawing(7)]),
      World(BACK, false, [FRESH], Sweeping(0), map[0 := Withdrawing(7)]),
      World(GONE, false, [FRESH], Sweeping(0), map[]),
      World(GONE, false, [FRESH], Started(0, true), map[]),
      World(BACK, false, [FRESH], Started(0, true), map[1 := Inserted(7)]) ]
  }

  ghost predicate OvertakenStep(i: nat)
    requires i < 8
  {
    var a, s := OvertakenWorlds()[i], Overtaken()[i];
    Enabled(a, s) && OvertakenWorlds()[i+1] == Next(a, s, 1)
  }

  lemma Unable()
    ensures OvertakenStep(0) && OvertakenStep(1) && OvertakenStep(2) && OvertakenStep(3)
  {
    assert map[0 := Creating(7)][0 := Failing(7)] == map[0 := Failing(7)];
    assert map[0 := Failing(7)][0 := Withdrawing(7)] == map[0 := Withdrawing(7)];
  }

  lemma Taken()
    ensures OvertakenStep(4)
  {
    assert [7][..0] == [];
    assert Added([], BACK, []) == [];
    assert !HasId([], 7);
    assert Added([], BACK, [7]) == [FRESH];
    assert Answers(BACK, [7], {BEGIN});
  }

  lemma Reopened()
    ensures OvertakenStep(5) && OvertakenStep(6) && OvertakenStep(7)
  {
    assert BACK[7 := Row(CLOSE, false)] == GONE && GONE[7 := Row(BEGIN, false)] == BACK;
    assert map[0 := Withdrawing(7)] - {0} == map[];
  }

  lemma OvertakenRun()
    ensures IsRun(OvertakenWorlds(), Overtaken(), 1)
  {
    Unable();
    Taken();
    Reopened();
    assert forall i: nat :: i < 8 ==> OvertakenStep(i);
  }

  // World 5 is sound, its withdrawal is not safe, and world 6 is not sound.
  lemma Breaks()
    ensures Sound(OvertakenWorlds()[5]) && !Safe(OvertakenWorlds()[5], Overtaken()[5]) && !Sound(OvertakenWorlds()[6])
  {
    var w := World(BACK, false, [FRESH], Sweeping(0), map[0 := Withdrawing(7)]);
    assert OvertakenWorlds()[5] == w && w.list[0] == FRESH && Live(w.list, 7);
    WithdrawSound(w, 7, Closed);
    assert BACK[7 := Row(CLOSE, false)] == GONE;
  }

  lemma AcceptedAgain()
    ensures Starting(OvertakenWorlds()[7], 7) && Accepts(OvertakenWorlds()[7].rows, 7)
  {
    assert OvertakenWorlds()[7] == World(GONE, false, [FRESH], Started(0, true), map[]);
    assert [FRESH][0].jobid == 7;
  }

  lemma UnsafeWithdrawal()
    ensures IsRun(OvertakenWorlds(), Overtaken(), 1) && Sound(OvertakenWorlds()[0])
    ensures Sound(OvertakenWorlds()[5]) && !Safe(OvertakenWorlds()[5], Overtaken()[5]) && !Sound(OvertakenWorlds()[6])
    ensures Starting(OvertakenWorlds()[7], 7) && Accepts(OvertakenWorlds()[7].rows, 7)
  {
    OvertakenRun();
    Breaks();
    AcceptedAgain();
  }

  // ---- at most one start per accepted job ----------------------------------------------

  // The row is to be started, and not being started now.
  function Owed(w: World, id: nat): nat
  {
    if Waiting(w.rows, id) && !Starting(w, id) then 1 else 0
  }

  predicate Starting(w: World, id: nat) { w.place.Started? && w.place.k < |w.list| && w.list[w.place.k].jobid == id }

  function Starts(w: World, s: Step, id: nat): nat { if s.Launch? && Visits(w, BEGIN) && w.list[w.place.k].jobid == id then 1 else 0 }

  function Grants(w: World, s: Step, id: nat): nat { if s.Submit? && s.id == id && Accepts(w.rows, id) then 1 else 0 }

  function Interrupts(w: World, s: Step, id: nat): nat { if s.Restart? && Starting(w, id) then 1 else 0 }

  lemma OwedStep(w: World, s: Step, id: nat, limit: int)
    requires Sound(w) && Enabled(w, s)
    ensures Starts(w, s, id) + Owed(Next(w, s, limit), id) <= Owed(w, id) + Grants(w, s, id) + Interrupts(w, s, id)
  {
  }

  function Total(states: seq<World>, steps: seq<Step>, id: nat, count: (World, Step, nat) -> nat): nat
    requires |states| > |steps|
  {
    if steps == [] then 0
    else Total(states, steps[..|steps|-1], id, count) + count(states[|steps|-1], steps[|steps|-1], id)
  }

  lemma {:induction false} SameTotal(a: seq<World>, b: seq<World>, steps: seq<Step>, id: nat, count: (World, Step, nat) -> nat)
    requires |steps| < |a| && |steps| < |b| && forall i :: 0 <= i < |steps| ==> a[i] == b[i]
    ensures Total(a, steps, id, count) == Total(b, steps, id, count)
  {
    if steps != [] {
      SameTotal(a, b, steps[..|steps|-1], id, count);
    }
  }

  // A jobid is started at most once for each accepted submission, plus once for
  // each restart between a launch and its record.
  lemma {:induction false} StartsAtMostOnce(states: seq<World>, steps: seq<Step>, id: nat, limit: int)
    requires IsRun(states, steps, limit) && Sound(states[0]) && SafeUpTo(states, steps, |steps|)
    ensures Sound(states[|steps|])
    ensures Total(states, steps, id, Starts) + Owed(states[|steps|], id)
         <= Owed(states[0], id) + Total(states, steps, id, Grants) + Total(states, steps, id, Interrupts)
  {
    if steps != [] {
      var n := |steps| - 1;
      StartsAtMostOnce(states[..n+1], steps[..n], id, limit);
      assert states[..n+1][n] == states[n] && states[..n+1][0] == states[0];
      SameTotal(states[..n+1], states, steps[..n], id, Starts);
      SameTotal(states[..n+1], states, steps[..n], id, Grants);
      SameTotal(states[..n+1], states, steps[..n], id, Interrupts);
      OwedStep(states[n], steps[n], id, limit);
      SoundStep(states[n], steps[n], limit);
    }
  }

  // While a job is in the list and not CLOSE its jobid is not accepted again, and
  // its row is never behind it.
  lemma ListedIsRefused(w: World, i: nat)
    requires Sound(w) && i < |w.list| && w.list[i].status != CLOSE
    ensures !Accepts(w.rows, w.list[i].jobid)
    ensures Rank(w.list[i].status) <= Rank(w.rows[w.list[i].jobid].status)
  {
    assert Matches(w.list[i], w.rows);
  }

  // ---- the steps refine the sweep ----------------------------------------------------------

  ghost predicate Reaches(w: World, steps: seq<Step>, last: World, limit: int)
    decreases |steps|
  {
    if steps == [] then w == last
    else Enabled(w, steps[0]) && Reaches(Next(w, steps[0], limit), steps[1..], last, limit)
  }

  lemma {:induction false} ReachesOn(w: World, a: seq<Step>, mid: World, b: seq<Step>, last: World, limit: int)
    requires Reaches(w, a, mid, limit) && Reaches(mid, b, last, limit)
    ensures Reaches(w, a + b, last, limit)
    decreases |a|
  {
    if a == [] {
      assert a + b == b;
    } else {
      assert (a + b)[1..] == a[1..] + b;
      ReachesOn(Next(w, a[0], limit), a[1..], mid, b, last, limit);
    }
  }

  lemma ReachesOne(w: World, s: Step, limit: int)
    requires Enabled(w, s)
    ensures Reaches(w, [s], Next(w, s, limit), limit)
  {
    assert [s][1..] == [];
  }

  // The world after a visit of the node at k that nothing interrupts.
  function Visited(w: World, k: nat, o: Outcome, limit: int): World
    requires k < |w.list|
  {
    var left := Visit(w.list[k], w.rows, o, limit);
    w.(rows := left.table, list := w.list[..k] + left.list + w.list[k+1..], place := Sweeping(k + |left.list|))
  }

  // Another turn at the same node comes to the same.
  lemma TurnVisited(w: World, k: nat, j: Job, rows: Table, o: Outcome, limit: int)
    requires k < |w.list| && Visit(j, rows, o, limit) == Visit(w.list[k], w.rows, o, limit)
    ensures Visited(w.(rows := rows, list := w.list[k := j], place := Sweeping(k)), k, o, limit) == Visited(w, k, o, limit)
  {
    assert w.list[k := j][..k] == w.list[..k] && w.list[k := j][k+1..] == w.list[k+1..];
  }

  lemma LastTurnVisited(w: World, k: nat, j: Job, rows: Table, o: Outcome, limit: int)
    requires k < |w.list| && Visit(w.list[k], w.rows, o, limit) == Left([j], rows)
    ensures w.(rows := rows, list := w.list[k := j], place := Sweeping(k + 1)) == Visited(w, k, o, limit)
  {
    assert w.list[k := j] == w.list[..k] + [j] + w.list[k+1..];
  }

  // A launch and its record, as one turn.
  lemma LaunchTurn(w: World, k: nat, ran: bool, limit: int)
    requires w.place == Sweeping(k) && Visits(w, BEGIN)
    ensures var j := Ran(w.list[k], ran);
      Reaches(w, [Launch(ran), Record], w.(rows := Stored(w.rows, j), list := w.list[k := j],
                                          place := Sweeping(if ran then k else k + 1)), limit)
  {
    var started := Next(w, Launch(ran), limit);
    ReachesOne(started, Record, limit);
    assert [Launch(ran), Record][1..] == [Record];
  }

  // Alone, the atomic steps at one node make up its visit.
  lemma {:induction false} VisitRefined(w: World, k: nat, o: Outcome, limit: int) returns (steps: seq<Step>)
    requires w.place == Sweeping(k) && k < |w.list|
    ensures Reaches(w, steps, Visited(w, k, o, limit), limit)
    decreases 3 - Rank(w.list[k].status)
  {
    var job := w.list[k];
    if job.status == CLOSE {
      assert w.list[..k] + [] + w.list[k+1..] == w.list[..k] + w.list[k+1..];
      steps := [Drop];
      ReachesOne(w, Drop, limit);
    } else {
      var turn: seq<Step>, j: Job, rows: Table, again: bool;
      match job.status {
        case BEGIN =>
          turn, j, again := [Launch(o.ran), Record], Ran(job, o.ran), o.ran;
          rows := Stored(w.rows, j);
          LaunchTurn(w, k, o.ran, limit);
        case RUN =>
          turn, j, again := [CheckEnd(o.check)], Ended(job, w.rows, o.check), o.check.Loaded?;
          rows := if o.check.Pending? then w.rows else Stored(w.rows, j);
          ReachesOne(w, CheckEnd(o.check), limit);
        case END =>
          turn, j, again := [Send(o.sent)], AgentJobs.Closed(job, o.sent, limit), o.sent;
          rows := StoredIfClosed(w.rows, j);
          ReachesOne(w, Send(o.sent), limit);
      }
      var mid := w.(rows := rows, list := w.list[k := j], place := Sweeping(if again then k else k + 1));
      if again {
        var rest := VisitRefined(mid, k, o, limit);
        TurnVisited(w, k, j, rows, o, limit);
        ReachesOn(w, turn, mid, rest, Visited(w, k, o, limit), limit);
        steps := turn + rest;
      } else {
        LastTurnVisited(w, k, j, rows, o, limit);
        steps := turn;
      }
    }
  }

  // The world once the sweep is done with n jobs.
  function SweptWorld(w: World, n: nat, outcomes: nat -> Outcome, limit: int): World
    requires n <= |w.list|
  {
    var left := Swept(w.list[..n], w.rows, outcomes, limit);
    w.(rows := left.table, list := left.list + w.list[n..], place := Sweeping(|left.list|))
  }

  // Alone, the atomic steps make up the sweep.
  lemma {:induction false} SweepRefined(w: World, n: nat, outcomes: nat -> Outcome, limit: int) returns (steps: seq<Step>)
    requires w.place == Sweeping(0) && n <= |w.list|
    ensures Reaches(w, steps, SweptWorld(w, n, outcomes, limit), limit)
  {
    if n == 0 {
      assert w.list[..0] == [] && [] + w.list[0..] == w.list;
      steps := [];
    } else {
      var before := SweepRefined(w, n - 1, outcomes, limit);
      var mid := SweptWorld(w, n - 1, outcomes, limit);
      var k := mid.place.k;
      var more := VisitRefined(mid, k, outcomes(n - 1), limit);
      SweptStep(w, n, outcomes, limit);
      ReachesOn(w, before, mid, more, SweptWorld(w, n, outcomes, limit), limit);
      steps := before + more;
    }
  }

  lemma SweptStep(w: World, n: nat, outcomes: nat -> Outcome, limit: int)
    requires 0 < n <= |w.list|
    ensures var mid := SweptWorld(w, n - 1, outcomes, limit);
      mid.place.k < |mid.list| && Visited(mid, mid.place.k, outcomes(n - 1), limit) == SweptWorld(w, n, outcomes, limit)
  {
    var mid := SweptWorld(w, n - 1, outcomes, limit);
    var k := mid.place.k;
    assert w.list[..n][..n-1] == w.list[..n-1];
    assert mid.list[..k] == Swept(w.list[..n-1], w.rows, outcomes, limit).list;
    assert mid.list[k] == w.list[n-1] && mid.list[k+1..] == w.list[n..];
  }
}
