// Backup and recovery of the agent's job database (src/jobarg_agent/jasqlite.c,
// jadbmain.c, jajournal.c): every statement that succeeds is journalled, a backup
// empties the journal, and a restore replays the journal over the backup.
module Recovery {
  import opened Common
  import opened Journal

  type JobId = n: nat | n < 0x1_0000_0000_0000_0000

  const STATUS_CLOSE := 3
  const SECONDS_PER_DAY := 24 * 60 * 60

  datatype Row = Row(status: int, endTime: nat, fields: seq<string>)

  type Tables = map<JobId, Row>

  // What a statement asks of the database. Query stands for every statement
  // without effect on the rows: selects and the "if not exists" schema statements.
  datatype Stmt =
    | Begin | Commit | Rollback | Vacuum
    | Replace(id: JobId, row: Row) | Delete(id: JobId)
    | Query | Malformed

  // One connection: the committed rows and those of the open transaction, if any.
  datatype Db = Db(committed: Tables, open: Option<Tables>)

  function Opened(t: Tables): Db { Db(t, None) }

  function Rows(d: Db): Tables { if d.open.Some? then d.open.value else d.committed }

  function Write(d: Db, t: Tables): Db { if d.open.Some? then Db(d.committed, Some(t)) else Opened(t) }

  // sqlite3_exec: None when it reports an error, which leaves the database as it was.
  function Exec(d: Db, s: Stmt): Option<Db>
  {
    match s
    case Begin => if d.open.Some? then None else Some(Db(d.committed, Some(d.committed)))
    case Commit => if d.open.None? then None else Some(Opened(d.open.value))
    case Rollback => if d.open.None? then None else Some(Opened(d.committed))
    case Vacuum => if d.open.Some? then None else Some(d)
    case Replace(id, row) => Some(Write(d, Rows(d)[id := row]))
    case Delete(id) => Some(Write(d, Rows(d) - {id}))
    case Query => Some(d)
    case Malformed => None
  }

  // The SQL engine's reading of a text; the agent relies on no more than this of it.
  type Engine = string -> Stmt

  const SQL_BEGIN := "BEGIN IMMEDIATE;"
  const SQL_COMMIT := "COMMIT;"
  const SQL_VACUUM := "VACUUM;"

  function SqlDelete(id: JobId): string { "delete from jobs where jobid = " + Digits(id) }

  ghost predicate Understands(sem: Engine)
  {
    && sem(SQL_BEGIN) == Begin && sem(SQL_COMMIT) == Commit && sem(SQL_VACUUM) == Vacuum
    && forall id: JobId :: sem(SqlDelete(id)) == Delete(id)
  }

  lemma DeleteAdmissible(id: JobId)
    ensures Fits(SqlDelete(id)) && Solid(SqlDelete(id))
  {
    assert Pow10(5) == 100000;
    assert Pow10(10) == 100000 * Pow10(5);
    assert Pow10(15) == 100000 * Pow10(10);
    assert Pow10(20) == 100000 * Pow10(15);
    DigitsLength(id, 20);
    assert SqlDelete(id)[0] == 'd';
  }

  // Executing statements until one fails, as the loader does.
  datatype Outcome = Outcome(ok: bool, db: Db)

  function Replay(sem: Engine, d: Db, texts: seq<string>): Outcome
    decreases |texts|
  {
    if texts == [] then Outcome(true, d)
    else
      match Exec(d, sem(texts[0]))
      case None => Outcome(false, d)
      case Some(d') => Replay(sem, d', texts[1..])
  }

  lemma ReplayAppend(sem: Engine, d: Db, a: seq<string>, b: seq<string>)
    requires Replay(sem, d, a).ok
    ensures Replay(sem, d, a + b) == Replay(sem, Replay(sem, d, a).db, b)
    decreases |a|
  {
    if a == [] {
      assert a + b == b;
    } else {
      assert (a + b)[1..] == a[1..] + b;
      ReplayAppend(sem, Exec(d, sem(a[0])).value, a[1..], b);
    }
  }

  // ---- absolute effects -----------------------------------------------------

  // What a log writes for each key it touches: a row, or nothing.
  type Effect = map<JobId, Option<Row>>

  function Over(e: Effect, t: Tables): Tables
  {
    map id | id in t.Keys + e.Keys && !(id in e && e[id].None?) :: if id in e then e[id].value else t[id]
  }

  ghost predicate Acts(e: Effect, w: Option<Effect>, base: Tables, d: Db)
  {
    && d.committed == Over(e, base)
    && (w.Some? <==> d.open.Some?)
    && (w.Some? ==> d.open.value == Over(w.value, base))
  }

  function Touch(e: Effect, w: Option<Effect>, id: JobId, o: Option<Row>): (Effect, Option<Effect>)
  {
    if w.Some? then (e, Some(w.value[id := o])) else (e[id := o], w)
  }

  function EffectOf(e: Effect, w: Option<Effect>, s: Stmt): (Effect, Option<Effect>)
  {
    match s
    case Begin => (e, Some(e))
    case Commit => if w.Some? then (w.value, None) else (e, w)
    case Rollback => (e, None)
    case Replace(id, row) => Touch(e, w, id, Some(row))
    case Delete(id) => Touch(e, w, id, None)
    case _ => (e, w)
  }

  lemma OverPut(e: Effect, base: Tables, id: JobId, row: Row)
    ensures Over(e, base)[id := row] == Over(e[id := Some(row)], base)
  {
  }

  lemma OverDrop(e: Effect, base: Tables, id: JobId)
    ensures Over(e, base) - {id} == Over(e[id := None], base)
  {
  }

  lemma ExecActs(e: Effect, w: Option<Effect>, base: Tables, d: Db, s: Stmt)
    requires Acts(e, w, base, d) && Exec(d, s).Some?
    ensures Acts(EffectOf(e, w, s).0, EffectOf(e, w, s).1, base, Exec(d, s).value)
  {
    match s
    case Replace(id, row) => OverPut(if w.Some? then w.value else e, base, id, row);
    case Delete(id) => OverDrop(if w.Some? then w.value else e, base, id);
    case _ =>
  }

  // Replayed from another starting point, a log fails or succeeds alike and
  // has the same effect.
  lemma {:induction false} ReplayElsewhere(sem: Engine, texts: seq<string>, e: Effect, w: Option<Effect>,
                                           base: Tables, d: Db, base': Tables, d': Db)
    returns (e2: Effect, w2: Option<Effect>)
    requires Acts(e, w, base, d) && Acts(e, w, base', d') && Replay(sem, d, texts).ok
    ensures Replay(sem, d', texts).ok
    ensures Acts(e2, w2, base, Replay(sem, d, texts).db) && Acts(e2, w2, base', Replay(sem, d', texts).db)
    decreases |texts|
  {
    if texts == [] {
      e2, w2 := e, w;
    } else {
      var s := sem(texts[0]);
      ExecActs(e, w, base, d, s);
      ExecActs(e, w, base', d', s);
      var eff := EffectOf(e, w, s);
      e2, w2 := ReplayElsewhere(sem, texts[1..], eff.0, eff.1, base, Exec(d, s).value, base', Exec(d', s).value);
    }
  }

  // ---- the files of the agent -------------------------------------------------

  datatype Files = Files(live: Db, backup: Tables, journal: string)

  ghost predicate Recoverable(sem: Engine, f: Files)
  {
    Replay(sem, Opened(f.backup), Scan(f.journal)) == Outcome(true, f.live)
  }

  // The journal is made of whole, admissible records.
  ghost predicate Framed(f: Files, log: seq<Entry>)
  {
    f.journal == File(log) && forall i :: 0 <= i < |log| ==> Fits(log[i].sql) && Solid(log[i].sql)
  }

  ghost predicate Sound(sem: Engine, f: Files)
  {
    Recoverable(sem, f) && exists log :: Framed(f, log)
  }

  function Logged(journal: string, now: nat, sql: string): string { journal + Record(now, sql) }

  // ja_db_vexecute: execute, then journal on success.
  function Executed(sem: Engine, f: Files, now: nat, sql: string): Files
  {
    match Exec(f.live, sem(sql))
    case None => f
    case Some(d) => Files(d, f.backup, Logged(f.journal, now, sql))
  }

  function BackedUp(f: Files): Files { Files(f.live, f.live.committed, "") }

  // ja_dbmain_restore: a fresh copy of the backup, the journal replayed, the connection closed.
  function Restored(sem: Engine, f: Files): Files
  {
    var r := Replay(sem, Opened(f.backup), Scan(f.journal));
    Files(Opened(r.db.committed), f.backup, f.journal)
  }

  lemma FramedMore(f: Files, g: Files, log: seq<Entry>, now: nat, sql: string)
    requires Framed(f, log) && Fits(sql) && Solid(sql) && g.journal == Logged(f.journal, now, sql)
    ensures Framed(g, log + [Entry(now, sql)])
  {
    FileAppend(log, Entry(now, sql));
  }

  lemma TextsMore(log: seq<Entry>, now: nat, sql: string)
    ensures Texts(log + [Entry(now, sql)]) == Texts(log) + [sql]
  {
  }

  // One more record: the loader reads one more statement.
  lemma JournalGrows(f: Files, log: seq<Entry>, now: nat, sql: string)
    requires Framed(f, log) && Fits(sql) && Solid(sql)
    ensures Scan(Logged(f.journal, now, sql)) == Scan(f.journal) + [sql]
  {
    var g := f.(journal := Logged(f.journal, now, sql));
    FramedMore(f, g, log, now, sql);
    FramingRoundTrip(log);
    FramingRoundTrip(log + [Entry(now, sql)]);
    TextsMore(log, now, sql);
  }

  lemma ExecuteKeepsSound(sem: Engine, f: Files, now: nat, sql: string)
    requires Sound(sem, f) && Fits(sql) && Solid(sql)
    ensures Sound(sem, Executed(sem, f, now, sql))
  {
    if Exec(f.live, sem(sql)).Some? {
      var log :| Framed(f, log);
      JournalGrows(f, log, now, sql);
      ReplayAppend(sem, Opened(f.backup), Scan(f.journal), [sql]);
      FramedMore(f, Executed(sem, f, now, sql), log, now, sql);
    }
  }

  lemma BackupIsSound(sem: Engine, f: Files)
    requires f.live.open.None?
    ensures Sound(sem, BackedUp(f))
  {
    assert Framed(BackedUp(f), []);
  }

  // A restore outside a transaction brings back the live database whatever
  // became of it, and a second one changes nothing.
  lemma RestoreRecovers(sem: Engine, f: Files, damaged: Db)
    requires Sound(sem, f) && f.live.open.None?
    ensures Restored(sem, f.(live := damaged)) == f
    ensures Restored(sem, Restored(sem, f.(live := damaged))) == f
  {
  }

  // A backup that stops after the copy and before the journal is emptied
  // leaves the old journal over the new backup: nothing is lost.
  lemma InterruptedBackupIsSound(sem: Engine, f: Files)
    requires Sound(sem, f) && f.live.open.None?
    ensures Sound(sem, f.(backup := f.live.committed))
  {
    var log :| Framed(f, log);
    assert Framed(f.(backup := f.live.committed), log);
    var base, base' := f.backup, f.live.committed;
    assert Over(map[], base) == base && Over(map[], base') == base';
    var e, w := ReplayElsewhere(sem, Scan(f.journal), map[], None, base, Opened(base), base', Opened(base'));
    assert Over(e, Over(e, base)) == Over(e, base);
  }

  // When the agent dies, SQLite rolls an open transaction back but the journal
  // keeps its BEGIN. Recovery survives exactly when no transaction was open;
  // otherwise the next BEGIN makes every later replay fail.
  lemma RestartKeepsRecoverable(sem: Engine, f: Files, now: nat)
    requires Sound(sem, f) && Understands(sem)
    ensures var g := f.(live := Opened(f.live.committed));
      && (Recoverable(sem, g) <==> f.live.open.None?)
      && (f.live.open.Some? ==>
            !Replay(sem, Opened(g.backup), Scan(Executed(sem, g, now, SQL_BEGIN).journal)).ok)
  {
    var g := f.(live := Opened(f.live.committed));
    if f.live.open.Some? {
      var log :| Framed(f, log);
      JournalGrows(f, log, now, SQL_BEGIN);
      ReplayAppend(sem, Opened(f.backup), Scan(f.journal), [SQL_BEGIN]);
    }
  }

  // ---- whole runs -----------------------------------------------------------

  // Loss: the database file is damaged beyond use and the agent restores it.
  datatype Op =
    | Statement(now: nat, sql: string)
    | FullBackup
    | InterruptedBackup
    | Loss(damaged: Db)

  predicate Admissible(op: Op) { op.Statement? ==> Fits(op.sql) && Solid(op.sql) }

  // Backups and losses happen outside transactions.
  function Apply(sem: Engine, f: Files, op: Op): Files
  {
    match op
    case Statement(now, sql) => Executed(sem, f, now, sql)
    case FullBackup => if f.live.open.None? then BackedUp(f) else f
    case InterruptedBackup => if f.live.open.None? then f.(backup := f.live.committed) else f
    case Loss(damaged) => if f.live.open.None? then Restored(sem, f.(live := damaged)) else f
  }

  function ApplyAll(sem: Engine, f: Files, ops: seq<Op>): Files
  {
    if ops == [] then f else Apply(sem, ApplyAll(sem, f, ops[..|ops|-1]), ops[|ops|-1])
  }

  // The database as the statements alone leave it.
  function Undisturbed(sem: Engine, d: Db, ops: seq<Op>): Db
  {
    if ops == [] then d
    else
      var before := Undisturbed(sem, d, ops[..|ops|-1]);
      match ops[|ops|-1]
      case Statement(_, sql) => (match Exec(before, sem(sql)) case None => before case Some(d') => d')
      case _ => before
  }

  // Backups, interrupted backups and losses of the database file cannot be
  // told from the database: it is always what the statements made it.
  lemma {:induction false} LossesAreInvisible(sem: Engine, f: Files, ops: seq<Op>)
    requires Sound(sem, f) && forall i :: 0 <= i < |ops| ==> Admissible(ops[i])
    ensures Sound(sem, ApplyAll(sem, f, ops))
    ensures ApplyAll(sem, f, ops).live == Undisturbed(sem, f.live, ops)
  {
    if ops != [] {
      var before := ApplyAll(sem, f, ops[..|ops|-1]);
      LossesAreInvisible(sem, f, ops[..|ops|-1]);
      match ops[|ops|-1]
      case Statement(now, sql) => ExecuteKeepsSound(sem, before, now, sql);
      case FullBackup => if before.live.open.None? { BackupIsSound(sem, before); }
      case InterruptedBackup => if before.live.open.None? { InterruptedBackupIsSound(sem, before); }
      case Loss(damaged) => if before.live.open.None? { RestoreRecovers(sem, before, damaged); }
    }
  }

  // ---- the agent --------------------------------------------------------------

  // Closed jobs that ended before the bound, as remove_oldjob selects them.
  predicate Old(t: Tables, id: JobId, bound: nat)
  {
    id in t && t[id].status == STATUS_CLOSE && t[id].endTime < bound
  }

  // The bound is printed as an unsigned 64-bit number.
  function HistoryBound(now: nat, days: nat): nat
  {
    (now as int - days * SECONDS_PER_DAY) % 0x1_0000_0000_0000_0000
  }

  // Gone are exactly the jobs at CLOSE, status 3, that ended before that time.
  ghost predicate Purged(before: Tables, after: Tables, time: nat)
  {
    && (forall id :: id in after <==> id in before && !(before[id].status == 3 && before[id].endTime < time))
    && forall id :: id in after ==> after[id] == before[id]
  }

  lemma RecentIsPurged(t: Tables, now: nat, days: nat)
    requires days * 86400 <= now < 0x1_0000_0000_0000_0000
    ensures Purged(t, Recent(t, HistoryBound(now, days)), now - days * 86400)
  {
    HistoryBoundIs(now, days);
  }

  // For any clock past the history it is the time that many days ago.
  lemma HistoryBoundIs(now: nat, days: nat)
    requires days * 86400 <= now < 0x1_0000_0000_0000_0000
    ensures HistoryBound(now, days) == now - days * 86400
  {
  }

  // What the removal of old jobs keeps.
  function Recent(t: Tables, bound: nat): Tables
  {
    map id | id in t && !Old(t, id, bound) :: t[id]
  }

  function Without(t: Tables, ids: seq<JobId>): Tables
  {
    if ids == [] then t else Without(t, ids[..|ids|-1]) - {ids[|ids|-1]}
  }

  lemma WithoutMembers(t: Tables, ids: seq<JobId>)
    ensures forall id :: id in Without(t, ids) <==> id in t && id !in ids
    ensures forall id :: id in Without(t, ids) ==> Without(t, ids)[id] == t[id]
  {
  }

  lemma WithoutOldIsRecent(t: Tables, ids: seq<JobId>, bound: nat)
    requires forall id: JobId :: id in ids <==> Old(t, id, bound)
    ensures Without(t, ids) == Recent(t, bound)
  {
    WithoutMembers(t, ids);
  }

  // The journal after the removal of old jobs.
  function Deletions(journal: string, now: nat, ids: seq<JobId>): string
  {
    if ids == [] then journal else Logged(Deletions(journal, now, ids[..|ids|-1]), now, SqlDelete(ids[|ids|-1]))
  }

  function Cleanup(journal: string, now: nat, ids: seq<JobId>): string
  {
    Logged(Logged(Deletions(Logged(journal, now, SQL_BEGIN), now, ids), now, SQL_COMMIT), now, SQL_VACUUM)
  }

  // How far a restore gets: the damaged file could not be set aside, no new one
  // opened, the backup not opened or its copy not begun, or the copy was tried.
  datatype Restoration = NotRenamed | NotOpened | NoBackup | Copied(whole: bool)

  function RestoredBy(sem: Engine, f: Files, way: Restoration): Files
  {
    match way
    case NotRenamed => f
    case NotOpened | NoBackup => f.(live := Opened(map[]))
    case Copied(whole) => Restored(sem, f.(backup := if whole then f.backup else map[])).(backup := f.backup)
  }

  // A restore gives back the database exactly when it gets to the copy and the
  // copy is whole, or what it leaves is the database all the same: the rows the
  // journal writes on its own, none, or the damaged ones.
  lemma RestoreExact(sem: Engine, f: Files, damaged: Db, way: Restoration)
    requires Sound(sem, f) && f.live.open.None?
    ensures way == Copied(true) ==> RestoredBy(sem, f.(live := damaged), way) == f
    ensures way.NotOpened? || way.NoBackup? ==> (RestoredBy(sem, f.(live := damaged), way) == f <==> f.live.committed == map[])
    ensures way.NotRenamed? ==> (RestoredBy(sem, f.(live := damaged), way) == f <==> damaged == f.live)
    ensures way == Copied(false) ==>
      var r := Replay(sem, Opened(map[]), Scan(f.journal));
      r.ok && (RestoredBy(sem, f.(live := damaged), way) == f <==> forall id :: id in f.backup ==> Written(sem, f, id))
  {
    if way == Copied(false) {
      var base, base' := f.backup, map[];
      assert Over(map[], base) == base && Over(map[], base') == base';
      var e, w := ReplayElsewhere(sem, Scan(f.journal), map[], None, base, Opened(base), base', Opened(base'));
      JournalCovers(sem, f, e, w);
    }
  }

  // The journal on its own leaves the row of id as it is in the database.
  ghost predicate Written(sem: Engine, f: Files, id: JobId)
  {
    var alone := Replay(sem, Opened(map[]), Scan(f.journal)).db.committed;
    (id in alone <==> id in f.live.committed) && (id in alone ==> alone[id] == f.live.committed[id])
  }

  lemma JournalCovers(sem: Engine, f: Files, e: Effect, w: Option<Effect>)
    requires Sound(sem, f) && f.live.open.None?
    requires Acts(e, w, f.backup, f.live) && Acts(e, w, map[], Replay(sem, Opened(map[]), Scan(f.journal)).db)
    ensures Replay(sem, Opened(map[]), Scan(f.journal)).db == f.live <==> forall id :: id in f.backup ==> Written(sem, f, id)
  {
    var alone := Replay(sem, Opened(map[]), Scan(f.journal)).db;
    if forall id :: id in f.backup ==> Written(sem, f, id) {
      forall id: JobId ensures (id in alone.committed <==> id in f.live.committed)
      ensures id in alone.committed ==> alone.committed[id] == f.live.committed[id] {
        if id in f.backup {
          assert Written(sem, f, id);
        }
      }
      assert alone.committed == f.live.committed;
    }
  }

  // How far a backup gets: not begun, or the copy tried, and the journal emptied or not.
  function BackedUpBy(f: Files, begun: bool, copied: bool, emptied: bool): Files
  {
    if !begun then f
    else Files(f.live, if copied && f.live.open.None? then f.live.committed else f.backup, if emptied then "" else f.journal)
  }

  // What a backup needs to keep the database recoverable: that it does not begin,
  // or copies outside a transaction, or cannot empty the journal, or that the
  // journal it empties has no effect on the backup.
  predicate Keeps(sem: Engine, f: Files, begun: bool, copied: bool, emptied: bool)
  {
    !begun || !emptied || (copied && f.live.open.None?)
    || Replay(sem, Opened(f.backup), Scan(f.journal)).db == Opened(f.backup)
  }

  lemma BackupExact(sem: Engine, f: Files, begun: bool, copied: bool, emptied: bool)
    requires Sound(sem, f)
    ensures Recoverable(sem, BackedUpBy(f, begun, copied, emptied)) <==> Keeps(sem, f, begun, copied, emptied)
    ensures Keeps(sem, f, begun, copied, emptied) ==> Sound(sem, BackedUpBy(f, begun, copied, emptied))
  {
    var g := BackedUpBy(f, begun, copied, emptied);
    if begun && emptied {
      assert Framed(g, []);
    } else if begun && copied && f.live.open.None? {
      InterruptedBackupIsSound(sem, f);
      assert g == f.(backup := f.live.committed);
    } else {
      assert g == f;
    }
  }

  class AgentDb {
    const sem: Engine
    var live: Db
    var backup: Tables
    var journal: string

    function Contents(): Files
      reads this
    {
      Files(live, backup, journal)
    }

    ghost predicate Valid()
      reads this
    {
      Understands(sem) && Sound(sem, Contents())
    }

    constructor (sem: Engine)
      requires Understands(sem)
      ensures Valid() && this.sem == sem && live == Opened(map[])
    {
      this.sem := sem;
      live, backup, journal := Opened(map[]), map[], "";
      new;
      assert Framed(Contents(), []);
    }

    method Execute(now: nat, sql: string) returns (ok: bool)
      modifies this
      ensures ok <==> Exec(old(live), sem(sql)).Some?
      ensures Contents() == Executed(sem, old(Contents()), now, sql)
      ensures live == if ok then Exec(old(live), sem(sql)).value else old(live)
      ensures old(Valid()) && Fits(sql) && Solid(sql) ==> Valid()
    {
      if Valid() && Fits(sql) && Solid(sql) {
        ExecuteKeepsSound(sem, Contents(), now, sql);
      }
      var r := Exec(live, sem(sql));
      ok := r.Some?;
      if ok {
        live := r.value;
        journal := Logged(journal, now, sql);
      }
    }

    // ja_journal_load, on the connection of the restored file.
    method LoadJournal() returns (ok: bool)
      modifies this`live
      ensures Outcome(ok, live) == Replay(sem, old(live), Scan(journal))
    {
      var rest := journal;
      ok := true;
      while true
        invariant ok && Replay(sem, live, Scan(rest)) == Replay(sem, old(live), Scan(journal))
        decreases |rest|
      {
        var h := ReadHeader(rest);
        if h.NotANumber? { break; }
        var n := Min(h.value, |h.rest|);
        var sql := h.rest[..n];
        assert Scan(rest)[1..] == Scan(h.rest[n..]);
        var r := Exec(live, sem(sql));
        if r.None? {
          ok := false;
          return;
        }
        live := r.value;
        rest := h.rest[n..];
      }
    }

    // ja_dbmain_restore. Nothing is required of live: this is the recovery from
    // its loss. The file is set aside, a new one opened, the backup opened and
    // copied into it, and the journal loaded; the result of the copy is not
    // looked at.
    method Restore(way: Restoration) returns (ok: bool)
      modifies this`live
      ensures Contents() == RestoredBy(sem, old(Contents()), way)
      ensures ok <==> way.Copied? && Replay(sem, Opened(if way.whole then backup else map[]), Scan(journal)).ok
    {
      match way
      case NotRenamed => ok := false;
      case NotOpened | NoBackup =>
        live := Opened(map[]);
        ok := false;
      case Copied(whole) =>
        live := Opened(map[]);
        if whole {
          live := Opened(backup);
        }
        ok := LoadJournal();
        live := Opened(live.committed);
    }

    method DeleteJob(now: nat, id: JobId) returns (ok: bool)
      requires Understands(sem)
      modifies this
      ensures ok && backup == old(backup) && (old(Valid()) ==> Valid())
      ensures live == Write(old(live), Rows(old(live)) - {id})
      ensures journal == Logged(old(journal), now, SqlDelete(id))
    {
      DeleteAdmissible(id);
      ok := Execute(now, SqlDelete(id));
    }

    // The loop of ja_dbmain_remove_oldjob, inside its transaction.
    method DeleteJobs(now: nat, cursor: seq<JobId>)
      requires Understands(sem) && live.open.Some?
      modifies this
      ensures backup == old(backup) && (old(Valid()) ==> Valid())
      ensures live == Db(old(live).committed, Some(Without(old(Rows(live)), cursor)))
      ensures journal == Deletions(old(journal), now, cursor)
    {
      for i := 0 to |cursor|
        invariant backup == old(backup) && (old(Valid()) ==> Valid())
        invariant live == Db(old(live).committed, Some(Without(old(Rows(live)), cursor[..i])))
        invariant journal == Deletions(old(journal), now, cursor[..i])
      {
        var _ := DeleteJob(now, cursor[i]);
        assert cursor[..i+1][..i] == cursor[..i];
      }
      assert cursor[..|cursor|] == cursor;
    }

    // The end of its transaction.
    method CommitAndVacuum(now: nat)
      requires Understands(sem) && live.open.Some?
      modifies this
      ensures backup == old(backup) && (old(Valid()) ==> Valid())
      ensures live == Opened(old(live).open.value)
      ensures journal == Logged(Logged(old(journal), now, SQL_COMMIT), now, SQL_VACUUM)
    {
      var _ := Execute(now, SQL_COMMIT);
      var _ := Execute(now, SQL_VACUUM);
    }

    // ja_dbmain_remove_oldjob; cursor is the result of its select.
    method RemoveOldJobs(now: nat, days: nat, cursor: seq<JobId>) returns (ok: bool)
      requires Understands(sem)
      requires forall id: JobId :: id in cursor <==> Old(Rows(live), id, HistoryBound(now, days))
      modifies this
      ensures backup == old(backup) && (old(Valid()) ==> Valid())
      ensures ok <==> old(live).open.None?
      ensures ok ==> live == Opened(Recent(old(live).committed, HistoryBound(now, days)))
      ensures ok && days * 86400 <= now < 0x1_0000_0000_0000_0000 ==>
        Purged(old(live).committed, live.committed, now - days * 86400)
      ensures ok ==> journal == Cleanup(old(journal), now, cursor)
      ensures !ok ==> Contents() == old(Contents())
    {
      ok := Execute(now, SQL_BEGIN);
      if !ok { return; }
      WithoutOldIsRecent(live.committed, cursor, HistoryBound(now, days));
      DeleteJobs(now, cursor);
      CommitAndVacuum(now);
      if days * 86400 <= now < 0x1_0000_0000_0000_0000 {
        RecentIsPurged(old(live).committed, now, days);
      }
    }

    // ja_dbmain_mem_backup, once it has begun: copied says whether the engine
    // could copy, which it refuses while a transaction is open; the result of the
    // copy is not looked at.
    method CopyTo(copied: bool)
      modifies this`backup
      ensures backup == if copied && live.open.None? then live.committed else old(backup)
    {
      if copied && live.open.None? {
        backup := live.committed;
      }
    }

    // ja_dbmain_backup: copy, empty the journal, drop the old history. begun says
    // whether there is a connection, the backup file could be opened and the copy
    // begun; emptied whether the journal could be.
    method Backup(now: nat, days: nat, cursor: seq<JobId>, begun: bool, copied: bool, emptied: bool) returns (ok: bool)
      requires Understands(sem)
      requires forall id: JobId :: id in cursor <==> Old(Rows(live), id, HistoryBound(now, days))
      modifies this
      ensures ok == (begun && emptied)
      ensures backup == BackedUpBy(old(Contents()), begun, copied, emptied).backup
      ensures !ok ==> Contents() == BackedUpBy(old(Contents()), begun, copied, emptied)
      ensures ok ==> live == if old(live).open.None? then Opened(Recent(old(live).committed, HistoryBound(now, days))) else old(live)
      ensures ok && old(live).open.None? && days * 86400 <= now < 0x1_0000_0000_0000_0000 ==>
        Purged(old(live).committed, live.committed, now - days * 86400)
      ensures ok ==> journal == if old(live).open.None? then Cleanup("", now, cursor) else ""
      ensures old(Valid()) && Keeps(sem, old(Contents()), begun, copied, emptied) ==> Valid()
    {
      ghost var start := Contents();
      if Valid() {
        BackupExact(sem, Contents(), begun, copied, emptied);
      }
      if !begun { return false; }
      CopyTo(copied);
      if !emptied { return false; }
      journal := "";
      assert Contents() == BackedUpBy(start, begun, copied, emptied);
      var removed := RemoveOldJobs(now, days, cursor);
      ok := true;
    }
  }
}
