// A round of the executive and a submission, nothing in between: the atomic steps
// of AgentProtocol come to what JobList.Agent does in one call
// (src/jobarg_agent/jajobobjectlist.c, jaagent.c).
module AgentRounds {
  import opened AgentJobs
  import opened AgentProtocol

  // Executive's contract on a world.
  function RoundOf(w: World, removed: bool, cursor: seq<nat>, outcomes: nat -> Outcome, limit: int): World
    requires forall id :: id in cursor ==> id in w.rows
  {
    var left := Swept(if w.flag then Added(w.list, w.rows, cursor) else w.list, w.rows, outcomes, limit);
    w.(rows := left.table, flag := w.flag && !removed, list := left.list, place := Idle)
  }

  lemma SweepAndEnd(w: World, outcomes: nat -> Outcome, limit: int) returns (steps: seq<Step>)
    requires w.place == Sweeping(0)
    ensures var left := Swept(w.list, w.rows, outcomes, limit);
      Reaches(w, steps, w.(rows := left.table, list := left.list, place := Idle), limit)
  {
    var sweep := SweepRefined(w, |w.list|, outcomes, limit);
    var swept := SweptWorld(w, |w.list|, outcomes, limit);
    assert w.list[..|w.list|] == w.list && swept.list == Swept(w.list, w.rows, outcomes, limit).list;
    ReachesOne(swept, EndSweep, limit);
    ReachesOn(w, sweep, swept, [EndSweep], Next(swept, EndSweep, limit), limit);
    steps := sweep + [EndSweep];
  }

  lemma RoundRefined(w: World, removed: bool, cursor: seq<nat>, outcomes: nat -> Outcome, limit: int) returns (steps: seq<Step>)
    requires w.place == Idle && Answers(w.rows, cursor, {BEGIN})
    ensures Reaches(w, steps, RoundOf(w, removed, cursor, outcomes, limit), limit)
  {
    var found := Next(w, FindFlag, limit);
    ReachesOne(w, FindFlag, limit);
    if w.flag {
      var lowered := Next(found, LowerFlag(removed), limit);
      var scanned := Next(lowered, Scan(cursor), limit);
      ReachesOne(found, LowerFlag(removed), limit);
      ReachesOne(lowered, Scan(cursor), limit);
      var rest := SweepAndEnd(scanned, outcomes, limit);
      ReachesOn(lowered, [Scan(cursor)], scanned, rest, RoundOf(w, removed, cursor, outcomes, limit), limit);
      ReachesOn(found, [LowerFlag(removed)], lowered, [Scan(cursor)] + rest, RoundOf(w, removed, cursor, outcomes, limit), limit);
      steps := [FindFlag] + ([LowerFlag(removed)] + ([Scan(cursor)] + rest));
      ReachesOn(w, [FindFlag], found, [LowerFlag(removed)] + ([Scan(cursor)] + rest), RoundOf(w, removed, cursor, outcomes, limit), limit);
    } else {
      var rest := SweepAndEnd(found, outcomes, limit);
      ReachesOn(w, [FindFlag], found, rest, RoundOf(w, removed, cursor, outcomes, limit), limit);
      steps := [FindFlag] + rest;
    }
  }

  // Begin's contract on a world, by the listener l.
  function BeginOf(w: World, id: nat, created: bool, updated: bool, deleted: bool): World
  {
    if !(id > 0 && (id in w.rows ==> w.rows[id].status == CLOSE)) then w
    else
      var begun := w.rows[id := Row(BEGIN, false)];
      if w.flag || created then w.(rows := begun, flag := true)
      else w.(rows := if updated then begun[id := Row(CLOSE, false)] else if deleted then begun - {id} else begun)
  }

  lemma NoListener(w: World, l: nat, a: Listener, b: Listener)
    requires l !in w.listeners
    ensures w.listeners[l := a] - {l} == w.listeners && w.listeners[l := a][l := b] == w.listeners[l := b]
  {
  }

  lemma AnnounceRefined(w: World, l: nat, id: nat, created: bool, limit: int) returns (steps: seq<Step>)
    requires l !in w.listeners && (w.flag || created)
    ensures Reaches(w.(listeners := w.listeners[l := Inserted(id)]), steps, w.(flag := true), limit)
  {
    var begun := w.(listeners := w.listeners[l := Inserted(id)]);
    NoListener(w, l, Inserted(id), Creating(id));
    ReachesOne(begun, TestFlag(l), limit);
    if w.flag {
      steps := [TestFlag(l)];
    } else {
      var creating := w.(listeners := w.listeners[l := Creating(id)]);
      NoListener(w, l, Creating(id), Creating(id));
      ReachesOne(creating, CreateFlag(l), limit);
      ReachesOn(begun, [TestFlag(l)], creating, [CreateFlag(l)], w.(flag := true), limit);
      steps := [TestFlag(l)] + [CreateFlag(l)];
    }
  }

  lemma WithdrawRefined(w: World, l: nat, id: nat, how: Withdrawal, limit: int) returns (steps: seq<Step>)
    requires l !in w.listeners && !w.flag && Waiting(w.rows, id)
    ensures Reaches(w.(listeners := w.listeners[l := Inserted(id)]), steps, w.(rows := Withdrawn(w.rows, id, how)), limit)
  {
    var begun := w.(listeners := w.listeners[l := Inserted(id)]);
    var creating := w.(listeners := w.listeners[l := Creating(id)]);
    var failing := w.(listeners := w.listeners[l := Failing(id)]);
    var withdrawing := w.(listeners := w.listeners[l := Withdrawing(id)]);
    var last := w.(rows := Withdrawn(w.rows, id, how));
    NoListener(w, l, Inserted(id), Creating(id));
    NoListener(w, l, Creating(id), Failing(id));
    NoListener(w, l, Failing(id), Withdrawing(id));
    NoListener(w, l, Withdrawing(id), Withdrawing(id));
    ReachesOne(begun, TestFlag(l), limit);
    ReachesOne(creating, FailFlag(l), limit);
    ReachesOne(failing, CheckRow(l), limit);
    ReachesOne(withdrawing, Withdraw(l, how), limit);
    ReachesOn(failing, [CheckRow(l)], withdrawing, [Withdraw(l, how)], last, limit);
    ReachesOn(creating, [FailFlag(l)], failing, [CheckRow(l)] + [Withdraw(l, how)], last, limit);
    steps := [TestFlag(l)] + ([FailFlag(l)] + ([CheckRow(l)] + [Withdraw(l, how)]));
    ReachesOn(begun, [TestFlag(l)], creating, [FailFlag(l)] + ([CheckRow(l)] + [Withdraw(l, how)]), last, limit);
  }

  lemma BeginRefined(w: World, l: nat, id: nat, created: bool, updated: bool, deleted: bool, limit: int) returns (steps: seq<Step>)
    requires l !in w.listeners
    ensures Reaches(w, steps, BeginOf(w, id, created, updated, deleted), limit)
  {
    ReachesOne(w, Submit(l, id), limit);
    if Accepts(w.rows, id) {
      var begun := w.(rows := w.rows[id := Row(BEGIN, false)]);
      var rest: seq<Step>;
      if w.flag || created {
        rest := AnnounceRefined(begun, l, id, created, limit);
      } else {
        rest := WithdrawRefined(begun, l, id, if updated then Closed else if deleted then Deleted else Neither, limit);
      }
      ReachesOn(w, [Submit(l, id)], begun.(listeners := w.listeners[l := Inserted(id)]), rest,
                BeginOf(w, id, created, updated, deleted), limit);
      steps := [Submit(l, id)] + rest;
    } else {
      steps := [Submit(l, id)];
    }
  }
}
