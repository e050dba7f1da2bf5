// The values icons inherit: what a completion or a run error hands to the
// successors, and what an icon has been given, over whole runs, when it starts.
module FlowValues {
  import opened Common
  import opened FlowTables
  import opened Arrivals
  import opened ValueTables
  import opened FlowOperations
  import FlowLaws

  type Vars = map<string, string>

  // Names that are no variables of an icon: none at all, and the message of its
  // latest error, which is removed before every start.
  const HIDDEN: set<string> := {"", MESSAGE}

  // The variables of an icon.
  function Proper(log: Log, id: JobId): Vars { Values(log, id) - HIDDEN }

  function Given(b: bool, v: Vars): Vars { if b then v else map[] }

  // ---- maps ---------------------------------------------------------------------

  lemma NothingGiven(m: Vars)
    ensures m + map[] == m
  {
  }

  lemma HideMerge(m: Vars, v: Vars)
    ensures (m + v) - HIDDEN == (m - HIDDEN) + (v - HIDDEN)
  {
  }

  lemma HidePut(m: Vars, name: string, value: string)
    ensures m[name := value] - HIDDEN == if name in HIDDEN then m - HIDDEN else (m - HIDDEN)[name := value]
  {
  }

  lemma HideDrop(m: Vars, name: string)
    ensures (m - {name}) - HIDDEN == (m - HIDDEN) - {name}
  {
  }

  lemma PutIsMerge(v: Vars, name: string, value: string)
    ensures v[name := value] == v + map[name := value]
  {
  }

  lemma MergeTwice(m: Vars, a: bool, b: bool, v: Vars)
    ensures (m + Given(a, v)) + Given(b, v) == m + Given(a || b, v)
  {
    NothingGiven(m);
    NothingGiven(m + v);
    assert (m + v) + v == m + v;
  }

  // ---- the table operations on variables ------------------------------------------

  lemma CleanProper(log: Log, job: JobId, id: JobId)
    requires Numbered(log)
    ensures Numbered(Clean(log, job)) && Proper(Clean(log, job), id) == Proper(log, id)
  {
    CleanNumbered(log, job);
    CleanKeepsValues(log, job, id);
    var v := Values(log, id);
    assert (v - {""}) - HIDDEN == v - HIDDEN;
  }

  lemma InsertProper(log: Log, job: JobId, name: string, value: string, id: JobId)
    requires Numbered(log)
    ensures Numbered(Insert(log, job, name, value))
    ensures Proper(Insert(log, job, name, value), id)
         == if job == id && name !in HIDDEN then Proper(log, id)[name := value] else Proper(log, id)
  {
    InsertNumbered(log, job, name, value);
    InsertValues(log, job, name, value, id);
    HidePut(Values(log, id), name, value);
  }

  lemma InsertAllProper(log: Log, job: JobId, rows: seq<Row>, id: JobId)
    requires Numbered(log)
    ensures Numbered(InsertAll(log, job, rows))
    ensures Proper(InsertAll(log, job, rows), id) == Proper(log, id) + Given(job == id, Assigned(rows) - HIDDEN)
  {
    InsertAllValues(log, job, rows, id);
    HideMerge(Values(log, id), Assigned(rows));
    NothingGiven(Proper(log, id));
  }

  lemma EraseProper(log: Log, job: JobId, name: string, id: JobId)
    requires Numbered(log)
    ensures Numbered(Erase(log, job, name))
    ensures Proper(Erase(log, job, name), id) == if job == id then Proper(log, id) - {name} else Proper(log, id)
  {
    EraseNumbered(log, job, name);
    EraseValues(log.rows, job, name, id);
    HideDrop(Values(log, id), name);
  }

  // An error message is no variable.
  lemma ToldProper(db: Db, src: JobId, id: JobId)
    requires ValidDb(db)
    ensures ValidDb(Told(db, src)) && Proper(Told(db, src).after, id) == Proper(db.after, id)
  {
    InsertProper(db.after, src, MESSAGE, db.said(db.after.next), id);
  }

  lemma EndErrProper(db: Db, src: JobId, msgFlag: int, id: JobId)
    requires ValidDb(db)
    ensures ValidDb(EndErrSet(db, src, msgFlag)) && Proper(EndErrSet(db, src, msgFlag).after, id) == Proper(db.after, id)
  {
    CleanProper(db.after, src, id);
    ToldProper(CleanedAfter(db, src), src, id);
  }

  // ---- one walk ---------------------------------------------------------------------

  // Some flow of the completion was taken by the icon.
  predicate Took(jobs: Jobs, links: Links, src: JobId, dsts: seq<JobId>, id: JobId)
  {
    dsts != [] &&
    (var front, last := dsts[..|dsts|-1], dsts[|dsts|-1];
     Took(jobs, links, src, front, id) || (last == id && Arrive(DeliverAll(jobs, links, src, front), links, last).Arrived?))
  }

  // From db to r: id is given the variables v, and no after-variables change.
  ghost predicate Handed(db: Db, r: Db, id: JobId, v: Vars)
  {
    && ValidDb(r)
    && (forall j :: Proper(r.after, j) == Proper(db.after, j))
    && Proper(r.before, id) == Proper(db.before, id) + v
  }

  lemma HandedTwice(db: Db, s: Db, r: Db, id: JobId, a: bool, b: bool, v: Vars)
    requires Handed(db, s, id, Given(a, v)) && Handed(s, r, id, Given(b, v))
    ensures Handed(db, r, id, Given(a || b, v))
  {
    MergeTwice(Proper(db.before, id), a, b, v);
  }

  // A refused flow hands nothing on: its messages are no variables.
  lemma RefusalKeepsValues(db: Db, src: JobId, id: JobId)
    requires ValidDb(db)
    ensures Handed(db, EndErrSet(Told(db, src), src, 1), id, map[])
  {
    NothingGiven(Proper(db.before, id));
    ToldProper(db, src, src);
    EndErrProper(Told(db, src), src, 1, src);
    forall j: JobId ensures Proper(EndErrSet(Told(db, src), src, 1).after, j) == Proper(db.after, j) {
      ToldProper(db, src, j);
      EndErrProper(Told(db, src), src, 1, j);
    }
  }

  lemma PassedValues(db: Db, src: JobId, dst: JobId, id: JobId)
    requires ValidDb(db)
    ensures Handed(db, Passed(db, src, dst), id, Given(dst == id && Arrive(db.jobs, db.links, dst).Arrived?, Proper(db.after, src)))
  {
    NothingGiven(Proper(db.before, id));
    match Arrive(db.jobs, db.links, dst)
    case Refused => RefusalKeepsValues(db, src, id);
    case Absorbed =>
    case Arrived(_) => InsertAllProper(db.before, dst, Select(db.after.rows, src), id);
  }

  lemma {:induction false} PassedAllValues(db: Db, src: JobId, dsts: seq<JobId>, id: JobId)
    requires ValidDb(db)
    ensures Handed(db, PassedAll(db, src, dsts), id, Given(Took(db.jobs, db.links, src, dsts, id), Proper(db.after, src)))
  {
    if dsts == [] {
      NothingGiven(Proper(db.before, id));
    } else {
      var front, last := dsts[..|dsts|-1], dsts[|dsts|-1];
      PassedAllValues(db, src, front, id);
      FlowLaws.PassedAllJobs(db, src, front);
      var s := PassedAll(db, src, front);
      PassedValues(s, src, last, id);
      HandedTwice(db, s, Passed(s, src, last), id, Took(db.jobs, db.links, src, front, id),
                  last == id && Arrive(s.jobs, s.links, last).Arrived?, Proper(db.after, src));
    }
  }

  // ---- one completion -----------------------------------------------------------------

  // The completion of src gives its variables to id.
  predicate Inherits(db: Db, src: JobId, kind: FlowKind, id: JobId)
  {
    var out := Outgoing(db.flows, src);
    out != [] && Running(db.nets, out[0].net) && Took(db.jobs, db.links, src, Targets(out, kind), id)
  }

  lemma {:induction false} TookIs(jobs: Jobs, links: Links, src: JobId, dsts: seq<JobId>, d: JobId)
    requires d != src && Unreset(jobs, links, dsts, d)
    ensures Took(jobs, links, src, dsts, d) <==> d in dsts && Counts(jobs[d])
  {
    if dsts != [] {
      var front, last := dsts[..|dsts|-1], dsts[|dsts|-1];
      assert forall x :: x in dsts <==> x in front || x == last;
      TookIs(jobs, links, src, front, d);
      WalkRow(jobs, links, src, front, d);
      OccursIn(front, d);
      HitIs(jobs[d], Occurs(front, d));
    }
  }

  // Exactly the icons that such a flow enters, and that it counts for, inherit.
  lemma InheritsExactly(db: Db, src: JobId, kind: FlowKind, d: JobId)
    requires GoesOn(db.flows, db.nets, src) && d != src && Spares(db.jobs, db.flows, db.links, src, kind, d)
    ensures Inherits(db, src, kind, d) <==> Counts(db.jobs[d]) && exists f :: f in db.flows && Taken(f, src, d, kind)
  {
    var dsts := Targets(Outgoing(db.flows, src), kind);
    OutgoingIn(db.flows, src);
    assert Outgoing(db.flows, src) != [] && Outgoing(db.flows, src)[0] in Outgoing(db.flows, src);
    SparesUnreset(db.jobs, db.flows, db.links, src, kind, d);
    TookIs(db.jobs, db.links, src, dsts, d);
    EntriesCount(db.flows, src, d, kind);
    OccursIn(dsts, d);
    if f :| f in db.flows && Taken(f, src, d, kind) {
      var i: nat :| i < |db.flows| && db.flows[i] == f;
      assert i in Entries(db.flows, src, d, kind);
    }
    if d in dsts {
      TargetTaken(db.flows, src, kind, d);
    }
  }

  // A completion that walks, from the cleaned database on.
  lemma WalkedValues(db: Db, src: JobId, kind: FlowKind, msgFlag: int, id: JobId)
    requires ValidDb(db) && Outgoing(db.flows, src) != [] && Running(db.nets, Outgoing(db.flows, src)[0].net)
    ensures Handed(db, Flowed(db, src, kind, msgFlag), id, Given(Inherits(db, src, kind, id), Proper(db.after, src)))
  {
    var db1 := CleanedAfter(db, src);
    CleanProper(db.after, src, src);
    PassedAllValues(db1, src, Targets(Outgoing(db.flows, src), kind), id);
    var walked := PassedAll(db1, src, Targets(Outgoing(db.flows, src), kind));
    forall j: JobId
      ensures Proper(walked.after, j) == Proper(db.after, j)
      ensures Numbered(Clean(walked.after, src)) && Proper(Clean(walked.after, src), j) == Proper(db.after, j)
    {
      CleanProper(db.after, src, j);
      CleanProper(walked.after, src, j);
    }
  }

  // A completion without flows.
  lemma NoFlowValues(db: Db, src: JobId, kind: FlowKind, msgFlag: int, id: JobId)
    requires ValidDb(db) && Outgoing(db.flows, src) == []
    ensures ValidDb(Flowed(db, src, kind, msgFlag)) && Flowed(db, src, kind, msgFlag).before == db.before
    ensures Proper(Flowed(db, src, kind, msgFlag).after, id) == Proper(db.after, id)
  {
    CleanProper(db.after, src, id);
    ToldProper(CleanedAfter(db, src), src, id);
    EndErrProper(Told(CleanedAfter(db, src), src), src, 1, id);
  }

  // A completion in a jobnet that does not run.
  lemma StoppedValues(db: Db, src: JobId, kind: FlowKind, msgFlag: int, id: JobId)
    requires ValidDb(db) && Outgoing(db.flows, src) != [] && !Running(db.nets, Outgoing(db.flows, src)[0].net)
    ensures ValidDb(Flowed(db, src, kind, msgFlag)) && Flowed(db, src, kind, msgFlag).before == db.before
    ensures Proper(Flowed(db, src, kind, msgFlag).after, id) == Proper(db.after, id)
  {
    var told := Told(CleanedAfter(db, src), src);
    CleanProper(db.after, src, id);
    ToldProper(CleanedAfter(db, src), src, id);
    CleanProper(told.after, src, id);
    assert RunErrSet(told, src, NO_STATUS) == StatusSet(CleanedAfter(told, src), src, RUNERR);
  }

  // A completion, with the message flag or without, overrides the
  // before-variables of exactly those icons that took a flow, with the
  // after-variables of the completed icon, and changes no other variable.
  lemma FlowedValues(db: Db, src: JobId, kind: FlowKind, msgFlag: int, id: JobId)
    requires ValidDb(db)
    ensures ValidDb(Flowed(db, src, kind, msgFlag))
    ensures Proper(Flowed(db, src, kind, msgFlag).after, id) == Proper(db.after, id)
    ensures Proper(Flowed(db, src, kind, msgFlag).before, id)
         == Proper(db.before, id) + Given(Inherits(db, src, kind, id), Proper(db.after, src))
  {
    var out := Outgoing(db.flows, src);
    if out != [] && Running(db.nets, out[0].net) {
      WalkedValues(db, src, kind, msgFlag, id);
    } else {
      NothingGiven(Proper(db.before, id));
      if out == [] {
        NoFlowValues(db, src, kind, msgFlag, id);
      } else {
        StoppedValues(db, src, kind, msgFlag, id);
      }
    }
  }

  // ---- run errors -------------------------------------------------------------------

  // The after-variables a failed icon ends with.
  function FailedVars(db: Db, id: JobId, iconStatus: int): Vars
  {
    Proper(db.after, id) + Given(WritesStatus(db.jobs, id, iconStatus), map["ICON_STATUS" := StatusText(iconStatus)])
  }

  // ICON_STATUS is left by job icons with an id and a status of their own only.
  lemma StatusLeft(db: Db, id: JobId, iconStatus: int)
    ensures FailedVars(db, id, iconStatus) ==
      if id in db.jobs && id > 0 && db.jobs[id].net > 0 && db.jobs[id].icon == JobIcon && iconStatus != -99
      then Proper(db.after, id)["ICON_STATUS" := StatusText(iconStatus)] else Proper(db.after, id)
  {
    NothingGiven(Proper(db.after, id));
    PutIsMerge(Proper(db.after, id), "ICON_STATUS", StatusText(iconStatus));
  }

  // The database in which a run error decides whether to go on.
  function Failing(db: Db, id: JobId, iconStatus: int): Db { IconStatusWritten(CleanedAfter(db, id), id, iconStatus) }

  lemma StatusWritten(log: Log, id: JobId, text: string, other: JobId)
    requires Numbered(log)
    ensures Numbered(Insert(log, id, "ICON_STATUS", text))
    ensures Proper(Insert(log, id, "ICON_STATUS", text), other)
         == if other == id then Proper(log, id) + map["ICON_STATUS" := text] else Proper(log, other)
  {
    assert "ICON_STATUS" !in HIDDEN by {
      assert "ICON_STATUS"[0] == 'I' && MESSAGE[0] == 'J';
    }
    InsertProper(log, id, "ICON_STATUS", text, other);
    PutIsMerge(Proper(log, id), "ICON_STATUS", text);
  }

  lemma FailingValues(db: Db, id: JobId, iconStatus: int, other: JobId)
    requires ValidDb(db)
    ensures ValidDb(Failing(db, id, iconStatus))
    ensures Proper(Failing(db, id, iconStatus).after, other)
         == if other == id then FailedVars(db, id, iconStatus) else Proper(db.after, other)
  {
    CleanProper(db.after, id, other);
    NothingGiven(Proper(db.after, id));
    if WritesStatus(db.jobs, id, iconStatus) {
      StatusWritten(Clean(db.after, id), id, StatusText(iconStatus), other);
    }
  }

  // A run error hands values on exactly when it goes on, to exactly the icons
  // that take a flow, its status among them.
  lemma FailedValues(db: Db, src: JobId, iconStatus: int, id: JobId)
    requires ValidDb(db)
    ensures ValidDb(RunErrSet(db, src, iconStatus))
    ensures Proper(RunErrSet(db, src, iconStatus).after, id)
         == if id == src then FailedVars(db, src, iconStatus) else Proper(db.after, id)
    ensures Proper(RunErrSet(db, src, iconStatus).before, id)
         == Proper(db.before, id)
            + Given(Continues(db, src, iconStatus) && Inherits(db, src, NORMAL, id), FailedVars(db, src, iconStatus))
  {
    FailingValues(db, src, iconStatus, id);
    FailingValues(db, src, iconStatus, src);
    NothingGiven(Proper(db.before, id));
    if Continues(db, src, iconStatus) {
      FlowedValues(Failing(db, src, iconStatus), src, NORMAL, 0, id);
    }
  }

  lemma RunSetValues(db: Db, id: JobId, other: JobId)
    requires ValidDb(db)
    ensures ValidDb(RunSet(db, id)) && Proper(RunSet(db, id).before, other) == Proper(db.before, other)
    ensures "" !in Values(RunSet(db, id).before, id)
    ensures OneRowEach(RunSet(db, id).before, id)
  {
    CleanProper(db.before, id, other);
    CleanKeepsValues(db.before, id, id);
    CleanIsFunctional(db.before, id);
  }

  ghost predicate OneRowEach(log: Log, id: JobId)
  {
    var s := Select(log.rows, id); forall a, b :: a in s && b in s && a.name == b.name ==> a == b
  }

  // ---- whole runs -----------------------------------------------------------------

  // What happens to the value tables: an icon writes an after-value or a
  // before-value, or loses one; the start icon is given the variables of its
  // jobnet; an icon hands on what it was given, is started, completed, fails,
  // or ends; an error of it is logged; other processes change statuses.
  datatype Event =
    | Write(id: JobId, name: string, value: string)
    | Remove(id: JobId, name: string)
    | WriteBefore(id: JobId, name: string, value: string)
    | RemoveBefore(id: JobId, name: string)
    | FromJobnet(id: JobId, rows: seq<Row>)
    | HandOn(id: JobId)
    | Start(id: JobId)
    | Finish(id: JobId, kind: FlowKind)
    | Fail(id: JobId, iconStatus: int)
    | End(id: JobId)
    | EndInError(id: JobId, msgFlag: int)
    | Tell(id: JobId)
    | Elsewhere(jobs: Jobs, nets: Nets)

  function Play(db: Db, e: Event): Db
  {
    match e
    case Write(id, name, value) => db.(after := Insert(db.after, id, name, value))
    case Remove(id, name) => db.(after := Erase(db.after, id, name))
    case WriteBefore(id, name, value) => db.(before := Insert(db.before, id, name, value))
    case RemoveBefore(id, name) => db.(before := Erase(db.before, id, name))
    case FromJobnet(id, rows) => db.(before := InsertAll(db.before, id, rows))
    case HandOn(id) => db.(after := InsertAll(db.after, id, Select(db.before.rows, id)))
    case Start(id) => RunSet(db, id)
    case Finish(id, kind) => Flowed(db, id, kind, 1)
    case Fail(id, iconStatus) => RunErrSet(db, id, iconStatus)
    case End(id) => EndSet(db, id, 1)
    case EndInError(id, msgFlag) => EndErrSet(db, id, msgFlag)
    case Tell(id) => Told(db, id)
    case Elsewhere(jobs, nets) => db.(jobs := jobs, nets := nets)
  }

  function PlayAll(db: Db, es: seq<Event>): Db
  {
    if es == [] then db else Play(PlayAll(db, es[..|es|-1]), es[|es|-1])
  }

  // What one event makes of the variables v an icon has been given.
  function Received(db: Db, e: Event, id: JobId, v: Vars): Vars
  {
    match e
    case WriteBefore(to, name, value) => if to == id && name !in HIDDEN then v[name := value] else v
    case RemoveBefore(to, name) => if to == id then v - {name} else v
    case FromJobnet(to, rows) => v + Given(to == id, Assigned(rows) - HIDDEN)
    case Finish(src, kind) => v + Given(Inherits(db, src, kind, id), Proper(db.after, src))
    case Fail(src, iconStatus) =>
      v + Given(Continues(db, src, iconStatus) && Inherits(db, src, NORMAL, id), FailedVars(db, src, iconStatus))
    case _ => v
  }

  // What an icon inherits: in order of arrival, what each completed or failed
  // source and each direct write gives it, later values over earlier ones.
  function Inherited(db: Db, es: seq<Event>, id: JobId): Vars
  {
    if es == [] then Proper(db.before, id)
    else
      var front := es[..|es|-1];
      Received(PlayAll(db, front), es[|es|-1], id, Inherited(db, front, id))
  }

  // An event that leaves what the icons have been given alone.
  ghost predicate KeepsBefore(db: Db, e: Event) { ValidDb(Play(db, e)) && Play(db, e).before == db.before }

  lemma WriteEvent(db: Db, id: JobId, name: string, value: string)
    requires ValidDb(db)
    ensures KeepsBefore(db, Write(id, name, value))
  {
    InsertNumbered(db.after, id, name, value);
    assert Play(db, Write(id, name, value)) == db.(after := Insert(db.after, id, name, value));
  }

  lemma RemoveEvent(db: Db, id: JobId, name: string)
    requires ValidDb(db)
    ensures KeepsBefore(db, Remove(id, name))
  {
    EraseNumbered(db.after, id, name);
    assert Play(db, Remove(id, name)) == db.(after := Erase(db.after, id, name));
  }

  lemma HandOnEvent(db: Db, id: JobId)
    requires ValidDb(db)
    ensures KeepsBefore(db, HandOn(id))
  {
    var rows := Select(db.before.rows, id);
    InsertAllProper(db.after, id, rows, id);
    assert Play(db, HandOn(id)) == db.(after := InsertAll(db.after, id, rows));
  }

  lemma EndEvent(db: Db, id: JobId)
    requires ValidDb(db)
    ensures KeepsBefore(db, End(id))
  {
    EndProper(db, id);
    assert Play(db, End(id)) == EndSet(db, id, 1);
  }

  lemma EndProper(db: Db, id: JobId)
    requires ValidDb(db)
    ensures ValidDb(EndSet(db, id, 1)) && EndSet(db, id, 1).before == db.before
  {
    CleanNumbered(db.after, id);
  }

  lemma EndInErrorEvent(db: Db, id: JobId, msgFlag: int)
    requires ValidDb(db)
    ensures KeepsBefore(db, EndInError(id, msgFlag))
  {
    EndErrProper(db, id, msgFlag, id);
    assert Play(db, EndInError(id, msgFlag)) == EndErrSet(db, id, msgFlag);
  }

  lemma TellEvent(db: Db, id: JobId)
    requires ValidDb(db)
    ensures KeepsBefore(db, Tell(id))
  {
    ToldProper(db, id, id);
    assert Play(db, Tell(id)) == Told(db, id);
  }

  predicate AfterOnly(e: Event) { e.Write? || e.Remove? || e.HandOn? || e.End? || e.EndInError? || e.Tell? || e.Elsewhere? }

  lemma AfterEvent(db: Db, e: Event)
    requires ValidDb(db) && AfterOnly(e)
    ensures KeepsBefore(db, e)
  {
    if e.Write? {
      WriteEvent(db, e.id, e.name, e.value);
    } else if e.Remove? {
      RemoveEvent(db, e.id, e.name);
    } else if e.HandOn? {
      HandOnEvent(db, e.id);
    } else if e.End? {
      EndEvent(db, e.id);
    } else if e.EndInError? {
      EndInErrorEvent(db, e.id, e.msgFlag);
    } else if e.Tell? {
      TellEvent(db, e.id);
    }
  }

  // What an event makes of the variables an icon has been given.
  ghost predicate Gives(db: Db, e: Event, id: JobId)
  {
    ValidDb(Play(db, e)) && Proper(Play(db, e).before, id) == Received(db, e, id, Proper(db.before, id))
  }

  lemma WriteBeforeEvent(db: Db, to: JobId, name: string, value: string, id: JobId)
    requires ValidDb(db)
    ensures Gives(db, WriteBefore(to, name, value), id)
  {
    InsertProper(db.before, to, name, value, id);
    assert Play(db, WriteBefore(to, name, value)) == db.(before := Insert(db.before, to, name, value));
  }

  lemma RemoveBeforeEvent(db: Db, to: JobId, name: string, id: JobId)
    requires ValidDb(db)
    ensures Gives(db, RemoveBefore(to, name), id)
  {
    EraseProper(db.before, to, name, id);
    assert Play(db, RemoveBefore(to, name)) == db.(before := Erase(db.before, to, name));
  }

  lemma FromJobnetEvent(db: Db, to: JobId, rows: seq<Row>, id: JobId)
    requires ValidDb(db)
    ensures Gives(db, FromJobnet(to, rows), id)
  {
    InsertAllProper(db.before, to, rows, id);
    assert Play(db, FromJobnet(to, rows)) == db.(before := InsertAll(db.before, to, rows));
  }

  lemma StartEvent(db: Db, to: JobId, id: JobId)
    requires ValidDb(db)
    ensures Gives(db, Start(to), id)
  {
    RunSetValues(db, to, id);
  }

  lemma FinishEvent(db: Db, src: JobId, kind: FlowKind, id: JobId)
    requires ValidDb(db)
    ensures Gives(db, Finish(src, kind), id)
  {
    FlowedValues(db, src, kind, 1, id);
  }

  lemma FailEvent(db: Db, src: JobId, iconStatus: int, id: JobId)
    requires ValidDb(db)
    ensures Gives(db, Fail(src, iconStatus), id)
  {
    FailedValues(db, src, iconStatus, id);
  }

  lemma PlayValues(db: Db, e: Event, id: JobId)
    requires ValidDb(db)
    ensures Gives(db, e, id)
  {
    if AfterOnly(e) {
      AfterEvent(db, e);
    } else if e.WriteBefore? {
      WriteBeforeEvent(db, e.id, e.name, e.value, id);
    } else if e.RemoveBefore? {
      RemoveBeforeEvent(db, e.id, e.name, id);
    } else if e.FromJobnet? {
      FromJobnetEvent(db, e.id, e.rows, id);
    } else if e.Start? {
      StartEvent(db, e.id, id);
    } else if e.Finish? {
      FinishEvent(db, e.id, e.kind, id);
    } else {
      FailEvent(db, e.id, e.iconStatus, id);
    }
  }

  lemma {:induction false} PlayedValues(db: Db, es: seq<Event>, id: JobId)
    requires ValidDb(db)
    ensures ValidDb(PlayAll(db, es)) && Proper(PlayAll(db, es).before, id) == Inherited(db, es, id)
  {
    if es != [] {
      PlayedValues(db, es[..|es|-1], id);
      PlayValues(PlayAll(db, es[..|es|-1]), es[|es|-1], id);
    }
  }

  // When an icon is started, its before-table holds one row per variable, and
  // the last arrival wins.
  lemma LastArrivalWins(db: Db, es: seq<Event>, id: JobId)
    requires ValidDb(db)
    ensures var before := RunSet(PlayAll(db, es), id).before;
      Values(before, id) - {MESSAGE} == Inherited(db, es, id) && OneRowEach(before, id)
  {
    PlayedValues(db, es, id);
    RunSetValues(PlayAll(db, es), id, id);
    var v := Values(RunSet(PlayAll(db, es), id).before, id);
    assert v - {MESSAGE} == v - HIDDEN;
  }

  // ---- the start of an icon -----------------------------------------------------------

  // jarun_value_before, for an icon whose row exists.
  function OwnVariables(id: JobId, jobId: string, jobName: string, time: string, path: string): seq<Event>
  {
    [ WriteBefore(id, "JOB_ID", jobId), WriteBefore(id, "JOB_NAME", jobName), WriteBefore(id, "CURRENT_TIME", time),
      WriteBefore(id, "JOB_ID_FULL", path), RemoveBefore(id, MESSAGE) ]
  }

  lemma InheritedNext(db: Db, es: seq<Event>, e: Event, id: JobId)
    ensures Inherited(db, es + [e], id) == Received(PlayAll(db, es), e, id, Inherited(db, es, id))
    ensures PlayAll(db, es + [e]) == Play(PlayAll(db, es), e)
  {
    assert (es + [e])[..|es|] == es;
  }

  lemma OwnWrite(db: Db, es: seq<Event>, id: JobId, name: string, value: string)
    requires name !in HIDDEN
    ensures Inherited(db, es + [WriteBefore(id, name, value)], id) == Inherited(db, es, id)[name := value]
  {
    InheritedNext(db, es, WriteBefore(id, name, value), id);
  }

  lemma OwnNames()
    ensures "JOB_ID" !in HIDDEN && "JOB_NAME" !in HIDDEN && "CURRENT_TIME" !in HIDDEN && "JOB_ID_FULL" !in HIDDEN
  {
    assert |"JOB_ID"| != |MESSAGE| && |"JOB_NAME"| != |MESSAGE| && |"CURRENT_TIME"| != |MESSAGE| && |"JOB_ID_FULL"| != |MESSAGE|;
  }

  // The events before the message is removed.
  function OwnWrites(es: seq<Event>, id: JobId, jobId: string, jobName: string, time: string, path: string): seq<Event>
  {
    es + [WriteBefore(id, "JOB_ID", jobId)] + [WriteBefore(id, "JOB_NAME", jobName)]
       + [WriteBefore(id, "CURRENT_TIME", time)] + [WriteBefore(id, "JOB_ID_FULL", path)]
  }

  lemma OwnInherited(db: Db, es: seq<Event>, id: JobId, jobId: string, jobName: string, time: string, path: string)
    ensures Inherited(db, OwnWrites(es, id, jobId, jobName, time, path), id)
         == Inherited(db, es, id)["JOB_ID" := jobId]["JOB_NAME" := jobName]["CURRENT_TIME" := time]["JOB_ID_FULL" := path]
  {
    OwnNames();
    var es1 := es + [WriteBefore(id, "JOB_ID", jobId)];
    var es2 := es1 + [WriteBefore(id, "JOB_NAME", jobName)];
    var es3 := es2 + [WriteBefore(id, "CURRENT_TIME", time)];
    OwnWrite(db, es, id, "JOB_ID", jobId);
    OwnWrite(db, es1, id, "JOB_NAME", jobName);
    OwnWrite(db, es2, id, "CURRENT_TIME", time);
    OwnWrite(db, es3, id, "JOB_ID_FULL", path);
  }

  lemma OwnSplits(es: seq<Event>, id: JobId, jobId: string, jobName: string, time: string, path: string)
    ensures es + OwnVariables(id, jobId, jobName, time, path)
         == OwnWrites(es, id, jobId, jobName, time, path) + [RemoveBefore(id, MESSAGE)]
  {
  }

  // An icon started as the server starts it sees exactly what it inherited, under
  // its own id, name, time and path, and no message of an earlier error.
  lemma StartVariables(db: Db, es: seq<Event>, id: JobId, jobId: string, jobName: string, time: string, path: string)
    requires ValidDb(db)
    ensures var before := RunSet(PlayAll(db, es + OwnVariables(id, jobId, jobName, time, path)), id).before;
      && Values(before, id)
         == Inherited(db, es, id)["JOB_ID" := jobId]["JOB_NAME" := jobName]["CURRENT_TIME" := time]["JOB_ID_FULL" := path] - {MESSAGE}
      && OneRowEach(before, id)
  {
    OwnSplits(es, id, jobId, jobName, time, path);
    OwnInherited(db, es, id, jobId, jobName, time, path);
    AfterRemoval(db, OwnWrites(es, id, jobId, jobName, time, path), id);
  }

  // A start right after the message has been removed.
  lemma AfterRemoval(db: Db, es: seq<Event>, id: JobId)
    requires ValidDb(db)
    ensures var before := RunSet(PlayAll(db, es + [RemoveBefore(id, MESSAGE)]), id).before;
      Values(before, id) == Inherited(db, es, id) - {MESSAGE} && OneRowEach(before, id)
  {
    var removal := RemoveBefore(id, MESSAGE);
    InheritedNext(db, es, removal, id);
    LastArrivalWins(db, es + [removal], id);
    PlayedValues(db, es, id);
    MessageGone(PlayAll(db, es), id);
    WithoutMessage(Values(RunSet(PlayAll(db, es + [removal]), id).before, id));
  }

  lemma MessageGone(db: Db, id: JobId)
    requires ValidDb(db)
    ensures MESSAGE !in Values(RunSet(Play(db, RemoveBefore(id, MESSAGE)), id).before, id)
  {
    var erased := Erase(db.before, id, MESSAGE);
    assert Play(db, RemoveBefore(id, MESSAGE)) == db.(before := erased);
    assert RunSet(db.(before := erased), id).before == Clean(erased, id);
    ErasedName(db.before, id);
  }

  lemma ErasedName(log: Log, id: JobId)
    requires Numbered(log)
    ensures MESSAGE !in Values(Clean(Erase(log, id, MESSAGE), id), id)
  {
    EraseNumbered(log, id, MESSAGE);
    EraseValues(log.rows, id, MESSAGE, id);
    CleanKeepsValues(Erase(log, id, MESSAGE), id, id);
  }

  lemma WithoutMessage(v: Vars)
    requires MESSAGE !in v
    ensures v - {MESSAGE} == v
  {
  }
}
