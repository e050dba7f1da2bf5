// The completion of an icon (ja_flow in src/jalibs/jaflow.c) and the status
// setters it is mutually recursive with (src/jalibs/jastatus.c), as functions on
// the tables of one database.
module FlowOperations {
  import opened Common
  import opened FlowTables
  import opened ValueTables

  // The tables of one database; nets, flows and links are only read here.
  // said gives the text of an error message that becomes an after-row, by the
  // number of the row.
  datatype Db = Db(jobs: Jobs, flows: seq<Flow>, links: Links, nets: Nets, before: Log, after: Log, said: nat -> string)

  ghost predicate ValidDb(db: Db) { Numbered(db.before) && Numbered(db.after) }

  const ICON_STATUS_LEN := 9  // room for the text in w_icon_status

  function Cut(s: string, room: nat): string { if |s| <= room then s else s[..room] }

  function Decimal(n: int): string { if n < 0 then "-" + Digits(-n) else Digits(n) }

  function StatusText(iconStatus: int): string { Cut(Decimal(iconStatus), ICON_STATUS_LEN) }

  // The text of a status that fits reads as that number.
  lemma StatusReads(n: int)
    requires -100000000 < n < 1000000000
    ensures n >= 0 ==> (forall c :: c in StatusText(n) ==> Digit(c)) && Fold(StatusText(n), 0) == n
    ensures n < 0 ==> StatusText(n) != "" && StatusText(n)[0] == '-'
                      && (forall c :: c in StatusText(n)[1..] ==> Digit(c)) && Fold(StatusText(n)[1..], 0) == -n
  {
    assert Pow10(4) == 10000;
    assert Pow10(8) == 10000 * Pow10(4);
    var m := if n < 0 then -n else n;
    FoldDigits(m);
    DigitsLength(m, if n < 0 then 8 else 9);
    if n < 0 {
      assert StatusText(n)[1..] == Digits(m);
    }
  }

  function CleanedAfter(db: Db, id: JobId): Db { db.(after := Clean(db.after, id)) }

  function StatusSet(db: Db, id: JobId, status: Status): Db { db.(jobs := Mark(db.jobs, id, status)) }

  // Rows are written only for icons with an id, in a jobnet with an id.
  predicate Named(jobs: Jobs, id: JobId) { id in jobs && id > 0 && jobs[id].net > 0 }

  const MESSAGE := "JOBARG_MESSAGE"

  // ja_log of an error or a warning about an icon.
  function Told(db: Db, id: JobId): Db
  {
    if Named(db.jobs, id) then db.(after := Insert(db.after, id, MESSAGE, db.said(db.after.next))) else db
  }

  function EndErrSet(db: Db, id: JobId, msgFlag: int): Db
  {
    var db1 := CleanedAfter(db, id);
    StatusSet(if msgFlag == 1 then Told(db1, id) else db1, id, ENDERR)
  }

  function EndSet(db: Db, id: JobId, msgFlag: int): Db
  {
    if msgFlag == 0 then db else StatusSet(CleanedAfter(db, id), id, END)
  }

  function RunSet(db: Db, id: JobId): Db { StatusSet(db.(before := Clean(db.before, id)), id, RUN) }

  function Passed(db: Db, src: JobId, dst: JobId): Db { Settled(db, src, dst, Arrive(db.jobs, db.links, dst)) }

  function Settled(db: Db, src: JobId, dst: JobId, a: Arrival): Db
  {
    match a
    case Refused => EndErrSet(Told(db, src), src, 1)
    case Absorbed => db
    case Arrived(jobs) => db.(jobs := jobs, before := InsertAll(db.before, dst, Select(db.after.rows, src)))
  }

  function PassedAll(db: Db, src: JobId, dsts: seq<JobId>): Db
  {
    if dsts == [] then db else Passed(PassedAll(db, src, dsts[..|dsts|-1]), src, dsts[|dsts|-1])
  }

  function Flowed(db: Db, id: JobId, kind: FlowKind, msgFlag: int): Db
    decreases 1
  {
    var db1 := CleanedAfter(db, id);
    var out := Outgoing(db.flows, id);
    if out == [] then EndErrSet(Told(db1, id), id, 1)
    else if !Running(db.nets, out[0].net) then RunErrSet(Told(db1, id), id, NO_STATUS)
    else EndSet(PassedAll(db1, id, Targets(out, kind)), id, msgFlag)
  }

  // The row written for the job controller variable ICON_STATUS.
  predicate WritesStatus(jobs: Jobs, id: JobId, iconStatus: int)
  {
    Named(jobs, id) && jobs[id].icon.JobIcon? && iconStatus != NO_STATUS
  }

  function IconStatusWritten(db: Db, id: JobId, iconStatus: int): Db
  {
    if WritesStatus(db.jobs, id, iconStatus)
    then db.(after := Insert(db.after, id, "ICON_STATUS", StatusText(iconStatus)))
    else db
  }

  predicate Continues(db: Db, id: JobId, iconStatus: int)
  {
    id in db.jobs && FailGoesOn(db.jobs[id], iconStatus)
  }

  function RunErrSet(db: Db, id: JobId, iconStatus: int): Db
    decreases if iconStatus == NO_STATUS then 0 else 2
  {
    var db1 := IconStatusWritten(CleanedAfter(db, id), id, iconStatus);
    StatusSet(if Continues(db, id, iconStatus) then Flowed(db1, id, NORMAL, 0) else db1, id, RUNERR)
  }
}
