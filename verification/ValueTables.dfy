// The before- and after-value tables of the job controller variables
// (src/jalibs/javalue.c). Rows are only appended, with rising sequence numbers,
// and deleted; of several rows of a job with one name the latest counts.
module ValueTables {
  import opened Common

  datatype Row = Row(seqNo: nat, job: JobId, name: string, value: string)

  // next is the number the database will give to the next row.
  datatype Log = Log(rows: seq<Row>, next: nat)

  ghost predicate Rising(rows: seq<Row>)
  {
    forall i, j :: 0 <= i < j < |rows| ==> rows[i].seqNo < rows[j].seqNo
  }

  ghost predicate Numbered(log: Log)
  {
    && Rising(log.rows)
    && (forall i :: 0 <= i < |log.rows| ==> log.rows[i].seqNo < log.next)
  }

  // insert
  function Insert(log: Log, job: JobId, name: string, value: string): Log
  {
    Log(log.rows + [Row(log.next, job, name, value)], log.next + 1)
  }

  // delete where seq_no in dead
  function Remove(rows: seq<Row>, dead: set<nat>): (r: seq<Row>)
    ensures forall x :: x in r <==> x in rows && x.seqNo !in dead
  {
    if rows == [] then []
    else Remove(rows[..|rows|-1], dead) + (if rows[|rows|-1].seqNo in dead then [] else [rows[|rows|-1]])
  }

  // delete where inner_job_id = job and value_name = name
  function Erased(rows: seq<Row>, job: JobId, name: string): (r: seq<Row>)
    ensures forall x :: x in r <==> x in rows && !(x.job == job && x.name == name)
  {
    if rows == [] then []
    else
      var last := rows[|rows|-1];
      Erased(rows[..|rows|-1], job, name) + (if last.job == job && last.name == name then [] else [last])
  }

  function Erase(log: Log, job: JobId, name: string): Log { Log(Erased(log.rows, job, name), log.next) }

  // select where inner_job_id = job
  function Select(rows: seq<Row>, job: JobId): (r: seq<Row>)
    ensures forall x :: x in r <==> x in rows && x.job == job
  {
    if rows == [] then []
    else Select(rows[..|rows|-1], job) + (if rows[|rows|-1].job == job then [rows[|rows|-1]] else [])
  }

  // The variables of a job: the latest value of each name.
  function Assigned(rows: seq<Row>): map<string, string>
  {
    if rows == [] then map[] else Assigned(rows[..|rows|-1])[rows[|rows|-1].name := rows[|rows|-1].value]
  }

  function Values(log: Log, job: JobId): map<string, string> { Assigned(Select(log.rows, job)) }

  // ---- the cursor of "order by value_name, seq_no desc" -----------------------

  predicate Less(a: string, b: string)
  {
    if a == "" then b != ""
    else b != "" && (a[0] < b[0] || (a[0] == b[0] && Less(a[1..], b[1..])))
  }

  predicate Before(a: Row, b: Row) { Less(a.name, b.name) || (a.name == b.name && a.seqNo > b.seqNo) }

  lemma LessTotal(a: string, b: string)
    ensures a == b || Less(a, b) || Less(b, a)
    ensures !(Less(a, b) && Less(b, a)) && !Less(a, a)
  {
    if a != "" && b != "" && a[0] == b[0] {
      LessTotal(a[1..], b[1..]);
      assert a == [a[0]] + a[1..] && b == [b[0]] + b[1..];
    }
    if a != "" {
      LessTotal(a[1..], a[1..]);
    }
  }

  lemma LessTransitive(a: string, b: string, c: string)
    requires Less(a, b) && Less(b, c)
    ensures Less(a, c)
  {
    if a != "" && a[0] == b[0] && b[0] == c[0] {
      LessTransitive(a[1..], b[1..], c[1..]);
    }
  }

  ghost predicate Sorted(c: seq<Row>)
  {
    forall i, j :: 0 <= i < j < |c| ==> Before(c[i], c[j])
  }

  lemma BeforeTransitive(a: Row, b: Row, c: Row)
    requires Before(a, b) && Before(b, c)
    ensures Before(a, c)
  {
    if Less(a.name, b.name) && Less(b.name, c.name) {
      LessTransitive(a.name, b.name, c.name);
    }
  }

  function Place(r: Row, c: seq<Row>): (d: seq<Row>)
    ensures forall x :: x in d <==> x == r || x in c
  {
    if c == [] || Before(r, c[0]) then [r] + c else [c[0]] + Place(r, c[1..])
  }

  lemma PlaceSorted(r: Row, c: seq<Row>)
    requires Sorted(c) && forall x :: x in c ==> x.seqNo != r.seqNo
    ensures Sorted(Place(r, c))
  {
    if c == [] {
    } else if Before(r, c[0]) {
      forall j | 0 < j < |c| ensures Before(r, c[j]) {
        BeforeTransitive(r, c[0], c[j]);
      }
    } else {
      PlaceSorted(r, c[1..]);
      LessTotal(r.name, c[0].name);
      var rest := Place(r, c[1..]);
      forall j | 0 <= j < |rest| ensures Before(c[0], rest[j]) {
        assert rest[j] in rest;
        if rest[j] != r {
          var k :| 0 <= k < |c[1..]| && c[1..][k] == rest[j];
          assert c[k+1] == rest[j];
        }
      }
    }
  }

  function Cursor(rows: seq<Row>): (c: seq<Row>)
    ensures forall x :: x in c <==> x in rows
  {
    if rows == [] then [] else Place(rows[|rows|-1], Cursor(rows[..|rows|-1]))
  }

  lemma CursorSorted(rows: seq<Row>)
    requires Rising(rows)
    ensures Sorted(Cursor(rows))
  {
    if rows != [] {
      var front := rows[..|rows|-1];
      CursorSorted(front);
      forall x | x in Cursor(front) ensures x.seqNo != rows[|rows|-1].seqNo {
        var i :| 0 <= i < |front| && front[i] == x;
      }
      PlaceSorted(rows[|rows|-1], Cursor(front));
    }
  }

  lemma SelectNumbered(rows: seq<Row>, job: JobId)
    requires Rising(rows)
    ensures Rising(Select(rows, job))
  {
    if rows != [] {
      var front := rows[..|rows|-1];
      SelectNumbered(front, job);
      forall i | 0 <= i < |Select(front, job)| ensures Select(front, job)[i].seqNo < rows[|rows|-1].seqNo {
        assert Select(front, job)[i] in front;
      }
    }
  }

  // ---- cleaning -----------------------------------------------------------------

  // Superseded rows of a job, and its rows without a name.
  predicate Stale(rows: seq<Row>, job: JobId, r: Row)
  {
    r in rows && r.job == job && (r.name == "" || exists s :: s in rows && s.job == job && s.name == r.name && s.seqNo > r.seqNo)
  }

  function StaleNumbers(rows: seq<Row>, job: JobId): set<nat>
  {
    set r | r in rows && Stale(rows, job, r) :: r.seqNo
  }

  function Clean(log: Log, job: JobId): Log
  {
    Log(Remove(log.rows, StaleNumbers(log.rows, job)), log.next)
  }

  lemma {:induction false} RemoveTwice(rows: seq<Row>, a: set<nat>, b: set<nat>)
    ensures Remove(Remove(rows, a), b) == Remove(rows, a + b)
  {
    if rows != [] {
      var front, last := rows[..|rows|-1], rows[|rows|-1];
      RemoveTwice(front, a, b);
      if last.seqNo in a {
        assert Remove(rows, a) == Remove(front, a);
      } else {
        RemoveLast(Remove(front, a), last, b);
      }
    }
  }

  lemma RemoveLast(rows: seq<Row>, last: Row, dead: set<nat>)
    ensures Remove(rows + [last], dead) == Remove(rows, dead) + (if last.seqNo in dead then [] else [last])
  {
    assert (rows + [last])[..|rows|] == rows;
  }

  lemma RemoveNone(rows: seq<Row>)
    ensures Remove(rows, {}) == rows
  {
  }

  // What the loop has deleted before row i of the cursor: repeated names.
  ghost function Repeats(c: seq<Row>, n: nat): set<nat>
    requires n <= |c|
  {
    if n == 0 then {}
    else Repeats(c, n - 1) + if Repeat(c, n - 1) then {c[n-1].seqNo} else {}
  }

  // Row i of the cursor has the name of the row before it.
  ghost predicate Repeat(c: seq<Row>, i: nat)
    requires i < |c|
  {
    c[i].name == if i == 0 then "" else c[i-1].name
  }

  lemma {:induction false} RepeatsMembers(c: seq<Row>, n: nat)
    requires n <= |c|
    ensures forall x :: x in Repeats(c, n) <==> exists i :: 0 <= i < n && c[i].seqNo == x && Repeat(c, i)
  {
    if n > 0 {
      RepeatsMembers(c, n - 1);
      forall x ensures x in Repeats(c, n) <==> exists i :: 0 <= i < n && c[i].seqNo == x && Repeat(c, i) {
        if x in Repeats(c, n) && x !in Repeats(c, n - 1) {
          assert c[n-1].seqNo == x && Repeat(c, n - 1);
        }
      }
    }
  }

  // c is what the ordered select returns.
  ghost predicate Ordered(log: Log, job: JobId, c: seq<Row>)
  {
    Sorted(c) && forall x :: x in c <==> x in log.rows && x.job == job
  }

  // In a sorted cursor the repeats are exactly the stale rows.
  lemma RepeatIsStale(log: Log, job: JobId, c: seq<Row>, i: nat)
    requires Ordered(log, job, c) && i < |c|
    ensures Repeat(c, i) <==> Stale(log.rows, job, c[i])
  {
    assert c[i] in c;
    if i > 0 {
      assert c[i-1] in c;
      LessTotal(c[i-1].name, c[i].name);
    }
    if c[i].name == "" && i > 0 {
      assert !Less(c[i-1].name, "");
    }
    if s :| s in log.rows && s.job == job && s.name == c[i].name && s.seqNo > c[i].seqNo {
      var k :| 0 <= k < |c| && c[k] == s;
      LessTotal(s.name, s.name);
      if k < i - 1 {
        LessTotal(c[i-1].name, c[i].name);
        assert Before(c[k], c[i-1]) && Before(c[i-1], c[i]);
      }
    }
  }

  lemma CursorOrdered(log: Log, job: JobId)
    requires Numbered(log)
    ensures Ordered(log, job, Cursor(Select(log.rows, job)))
  {
    SelectNumbered(log.rows, job);
    CursorSorted(Select(log.rows, job));
  }

  lemma RepeatsAreStale(log: Log, job: JobId, c: seq<Row>)
    requires Numbered(log) && Ordered(log, job, c)
    ensures Repeats(c, |c|) == StaleNumbers(log.rows, job)
  {
    RepeatsMembers(c, |c|);
    forall x | x in Repeats(c, |c|) ensures x in StaleNumbers(log.rows, job) {
      var i :| 0 <= i < |c| && c[i].seqNo == x && Repeat(c, i);
      RepeatIsStale(log, job, c, i);
      assert c[i] in log.rows;
    }
    forall x | x in StaleNumbers(log.rows, job) ensures x in Repeats(c, |c|) {
      var r :| r in log.rows && Stale(log.rows, job, r) && r.seqNo == x;
      assert r in c;
      var i :| 0 <= i < |c| && c[i] == r;
      RepeatIsStale(log, job, c, i);
    }
  }

  lemma RepeatsStep(c: seq<Row>, i: nat)
    requires i < |c|
    ensures Repeats(c, i + 1) == if Repeat(c, i) then Repeats(c, i) + {c[i].seqNo} else Repeats(c, i)
  {
  }

  // The loop of ja_clean_value_before and ja_clean_value_after.
  method DeleteRepeats(log: Log, cursor: seq<Row>) returns (r: Log)
    ensures r == Log(Remove(log.rows, Repeats(cursor, |cursor|)), log.next)
  {
    var valueName := "";
    r := log;
    RemoveNone(log.rows);
    for i := 0 to |cursor|
      invariant valueName == if i == 0 then "" else cursor[i-1].name
      invariant r == Log(Remove(log.rows, Repeats(cursor, i)), log.next)
    {
      RepeatsStep(cursor, i);
      if cursor[i].name != valueName {
        valueName := cursor[i].name;
        continue;
      }
      RemoveTwice(log.rows, Repeats(cursor, i), {cursor[i].seqNo});
      r := Log(Remove(r.rows, {cursor[i].seqNo}), r.next);
    }
  }

  method CleanLog(log: Log, job: JobId) returns (r: Log)
    requires Numbered(log)
    ensures r == Clean(log, job)
  {
    var cursor := Cursor(Select(log.rows, job));
    CursorOrdered(log, job);
    RepeatsAreStale(log, job, cursor);
    r := DeleteRepeats(log, cursor);
  }

  // ---- what cleaning preserves ----------------------------------------------------

  ghost predicate Latest(rows: seq<Row>, name: string, r: Row)
  {
    r in rows && r.name == name && forall s :: s in rows && s.name == name ==> s.seqNo <= r.seqNo
  }

  lemma {:induction false} AssignedIsLatest(rows: seq<Row>, name: string)
    requires Rising(rows)
    ensures name in Assigned(rows) ==> exists r :: Latest(rows, name, r) && Assigned(rows)[name] == r.value
    ensures name !in Assigned(rows) ==> forall r :: r in rows ==> r.name != name
  {
    if rows != [] {
      var front, last := rows[..|rows|-1], rows[|rows|-1];
      AssignedIsLatest(front, name);
      assert forall r :: r in rows <==> r in front || r == last;
      if last.name == name {
        assert Latest(rows, name, last);
      } else if name in Assigned(front) {
        var r :| Latest(front, name, r) && Assigned(front)[name] == r.value;
        assert Latest(rows, name, r);
      }
    }
  }

  lemma CleanNumbered(log: Log, job: JobId)
    requires Numbered(log)
    ensures Numbered(Clean(log, job))
  {
    RemoveNumbered(log.rows, StaleNumbers(log.rows, job));
    forall i | 0 <= i < |Clean(log, job).rows| ensures Clean(log, job).rows[i].seqNo < log.next {
      assert Clean(log, job).rows[i] in log.rows;
    }
  }

  lemma RemoveNumbered(rows: seq<Row>, dead: set<nat>)
    requires Rising(rows)
    ensures Rising(Remove(rows, dead))
  {
    if rows != [] {
      var front := rows[..|rows|-1];
      RemoveNumbered(front, dead);
      forall i | 0 <= i < |Remove(front, dead)| ensures Remove(front, dead)[i].seqNo < rows[|rows|-1].seqNo {
        assert Remove(front, dead)[i] in front;
      }
    }
  }

  lemma SameNumberSameRow(log: Log, a: Row, b: Row)
    requires Numbered(log) && a in log.rows && b in log.rows && a.seqNo == b.seqNo
    ensures a == b
  {
    var i :| 0 <= i < |log.rows| && log.rows[i] == a;
    var j :| 0 <= j < |log.rows| && log.rows[j] == b;
  }

  // Which rows survive.
  lemma CleanKeeps(log: Log, job: JobId, r: Row)
    requires Numbered(log)
    ensures r in Clean(log, job).rows <==> r in log.rows && !Stale(log.rows, job, r)
  {
    if r in log.rows && r.seqNo in StaleNumbers(log.rows, job) {
      var s :| s in log.rows && Stale(log.rows, job, s) && s.seqNo == r.seqNo;
      SameNumberSameRow(log, r, s);
    }
  }

  // Deleting rows that are not the latest of a name keeps its value.
  lemma SameLatest(more: seq<Row>, fewer: seq<Row>, name: string)
    requires Rising(more) && Rising(fewer)
    requires forall x :: x in fewer ==> x in more
    requires forall r :: Latest(more, name, r) ==> r in fewer
    ensures name in Assigned(fewer) <==> name in Assigned(more)
    ensures name in Assigned(more) ==> Assigned(fewer)[name] == Assigned(more)[name]
  {
    AssignedIsLatest(more, name);
    AssignedIsLatest(fewer, name);
    if name in Assigned(more) {
      var r :| Latest(more, name, r) && Assigned(more)[name] == r.value;
      var s :| Latest(fewer, name, s) && Assigned(fewer)[name] == s.value;
      LatestUnique(more, r, s);
    }
  }

  lemma LatestUnique(rows: seq<Row>, r: Row, s: Row)
    requires Rising(rows) && r in rows && s in rows && r.seqNo == s.seqNo
    ensures r == s
  {
    var i :| 0 <= i < |rows| && rows[i] == r;
    var j :| 0 <= j < |rows| && rows[j] == s;
  }

  lemma LatestSurvives(log: Log, job: JobId, other: JobId, name: string)
    requires Numbered(log) && !(other == job && name == "")
    ensures forall r :: Latest(Select(log.rows, other), name, r) ==> r in Select(Clean(log, job).rows, other)
    ensures forall r :: r in Select(Clean(log, job).rows, other) ==> r in Select(log.rows, other)
  {
    forall r | Latest(Select(log.rows, other), name, r) ensures r in Select(Clean(log, job).rows, other) {
      forall s | s in log.rows && s.job == other && s.name == name ensures s.seqNo <= r.seqNo {
        assert s in Select(log.rows, other);
      }
      CleanKeeps(log, job, r);
    }
  }

  lemma ValueSurvives(log: Log, job: JobId, other: JobId, name: string)
    requires Numbered(log) && !(other == job && name == "")
    ensures name in Values(Clean(log, job), other) <==> name in Values(log, other)
    ensures name in Values(log, other) ==> Values(Clean(log, job), other)[name] == Values(log, other)[name]
  {
    CleanNumbered(log, job);
    SelectNumbered(log.rows, other);
    SelectNumbered(Clean(log, job).rows, other);
    LatestSurvives(log, job, other, name);
    SameLatest(Select(log.rows, other), Select(Clean(log, job).rows, other), name);
  }

  lemma NamelessGone(log: Log, job: JobId)
    requires Numbered(log)
    ensures "" !in Values(Clean(log, job), job)
  {
    var fewer := Select(Clean(log, job).rows, job);
    forall r | r in fewer ensures r.name != "" {
      CleanKeeps(log, job, r);
    }
    AssignedNames(fewer);
  }

  // Cleaning keeps every variable of every job, except the nameless ones of
  // the job cleaned.
  lemma CleanKeepsValues(log: Log, job: JobId, other: JobId)
    requires Numbered(log)
    ensures Values(Clean(log, job), other) == if other == job then Values(log, job) - {""} else Values(log, other)
  {
    var was, now := Values(log, other), Values(Clean(log, job), other);
    var kept := if other == job then was - {""} else was;
    forall name: string ensures (name in now <==> name in kept) && (name in now ==> now[name] == kept[name]) {
      if other == job && name == "" {
        NamelessGone(log, job);
      } else {
        ValueSurvives(log, job, other, name);
      }
    }
    SameMap(now, kept);
  }

  lemma SameMap(a: map<string, string>, b: map<string, string>)
    requires forall name: string :: (name in a <==> name in b) && (name in a ==> a[name] == b[name])
    ensures a == b
  {
    forall name | name in a.Keys + b.Keys ensures name in a && name in b && a[name] == b[name] {
    }
  }

  // After cleaning a job has one row per name.
  lemma CleanIsFunctional(log: Log, job: JobId)
    requires Numbered(log)
    ensures var s := Select(Clean(log, job).rows, job); forall a, b :: a in s && b in s && a.name == b.name ==> a == b
  {
    var s := Select(Clean(log, job).rows, job);
    forall a, b | a in s && b in s && a.name == b.name ensures a == b {
      CleanKeeps(log, job, a);
      CleanKeeps(log, job, b);
      SameNumberOrStale(log, job, a, b);
    }
  }

  // One row per name, and none without one.
  ghost predicate Tidy(log: Log, job: JobId)
  {
    var s := Select(log.rows, job);
    (forall a, b :: a in s && b in s && a.name == b.name ==> a == b) && forall a :: a in s ==> a.name != ""
  }

  lemma CleanIsTidy(log: Log, job: JobId)
    requires Numbered(log)
    ensures Tidy(Clean(log, job), job)
  {
    CleanIsFunctional(log, job);
    forall a | a in Select(Clean(log, job).rows, job) ensures a.name != "" {
      CleanKeeps(log, job, a);
    }
  }

  lemma SameNumberOrStale(log: Log, job: JobId, a: Row, b: Row)
    requires Numbered(log) && a in log.rows && b in log.rows && a.job == b.job == job && a.name == b.name
    requires !Stale(log.rows, job, a) && !Stale(log.rows, job, b)
    ensures a == b
  {
    SameNumberSameRow(log, a, if a.seqNo == b.seqNo then b else a);
  }

  // ---- copying ----------------------------------------------------------------------

  // insert ... select: the rows of picked, in the order the select returns them.
  function InsertAll(log: Log, job: JobId, picked: seq<Row>): Log
  {
    if picked == [] then log
    else Insert(InsertAll(log, job, picked[..|picked|-1]), job, picked[|picked|-1].name, picked[|picked|-1].value)
  }

  lemma InsertNumbered(log: Log, job: JobId, name: string, value: string)
    requires Numbered(log)
    ensures Numbered(Insert(log, job, name, value))
  {
  }

  lemma InsertValues(log: Log, job: JobId, name: string, value: string, other: JobId)
    ensures Values(Insert(log, job, name, value), other)
         == if other == job then Values(log, job)[name := value] else Values(log, other)
  {
    var rows := Insert(log, job, name, value).rows;
    assert rows[..|rows|-1] == log.rows;
    if other == job {
      var s := Select(rows, job);
      assert s[..|s|-1] == Select(log.rows, job);
    } else {
      assert Select(rows, other) == Select(log.rows, other);
    }
  }

  // The copied variables override those already there.
  lemma {:induction false} InsertAllValues(log: Log, job: JobId, picked: seq<Row>, other: JobId)
    requires Numbered(log)
    ensures Numbered(InsertAll(log, job, picked))
    ensures Values(InsertAll(log, job, picked), other)
         == if other == job then Values(log, job) + Assigned(picked) else Values(log, other)
  {
    if picked == [] {
      assert Values(log, job) + map[] == Values(log, job);
    } else {
      var front, last := picked[..|picked|-1], picked[|picked|-1];
      InsertAllValues(log, job, front, other);
      var before := InsertAll(log, job, front);
      InsertNumbered(before, job, last.name, last.value);
      InsertValues(before, job, last.name, last.value, other);
      MergeStep(Values(log, job), Assigned(front), last.name, last.value);
    }
  }

  lemma MergeStep(m: map<string, string>, n: map<string, string>, name: string, value: string)
    ensures (m + n)[name := value] == m + n[name := value]
  {
  }

  lemma EraseNumbered(log: Log, job: JobId, name: string)
    requires Numbered(log)
    ensures Numbered(Erase(log, job, name))
  {
    ErasedRises(log.rows, job, name);
    forall i | 0 <= i < |Erase(log, job, name).rows| ensures Erase(log, job, name).rows[i].seqNo < log.next {
      assert Erase(log, job, name).rows[i] in log.rows;
    }
  }

  lemma ErasedRises(rows: seq<Row>, job: JobId, name: string)
    requires Rising(rows)
    ensures Rising(Erased(rows, job, name))
  {
    if rows != [] {
      var front := rows[..|rows|-1];
      ErasedRises(front, job, name);
      forall i | 0 <= i < |Erased(front, job, name)| ensures Erased(front, job, name)[i].seqNo < rows[|rows|-1].seqNo {
        assert Erased(front, job, name)[i] in front;
      }
    }
  }

  lemma DropPut(m: map<string, string>, put: string, value: string, name: string)
    ensures m[put := value] - {name} == if put == name then m - {name} else (m - {name})[put := value]
  {
  }

  lemma ErasedLast(rows: seq<Row>, last: Row, job: JobId, name: string)
    ensures Erased(rows + [last], job, name)
         == if last.job == job && last.name == name then Erased(rows, job, name) else Erased(rows, job, name) + [last]
  {
    assert (rows + [last])[..|rows|] == rows;
  }

  // The variables of a job, one row later.
  lemma VariablesLast(rows: seq<Row>, last: Row, job: JobId)
    ensures Assigned(Select(rows + [last], job))
         == if last.job == job then Assigned(Select(rows, job))[last.name := last.value] else Assigned(Select(rows, job))
  {
    SelectLast(rows, last, job);
    AssignedLast(Select(rows, job), last);
  }

  // Erasing a name takes that variable from that job and nothing else.
  lemma {:induction false} EraseValues(rows: seq<Row>, job: JobId, name: string, other: JobId)
    ensures Assigned(Select(Erased(rows, job, name), other))
         == if other == job then Assigned(Select(rows, job)) - {name} else Assigned(Select(rows, other))
  {
    if rows == [] {
      assert Select(Erased(rows, job, name), other) == [] && Select(rows, job) == [];
    } else {
      var front, last := rows[..|rows|-1], rows[|rows|-1];
      assert front + [last] == rows;
      EraseValues(front, job, name, other);
      ErasedLast(front, last, job, name);
      VariablesLast(front, last, other);
      VariablesLast(Erased(front, job, name), last, other);
      DropPut(Assigned(Select(front, job)), last.name, last.value, name);
    }
  }

  lemma SelectLast(rows: seq<Row>, last: Row, job: JobId)
    ensures Select(rows + [last], job) == if last.job == job then Select(rows, job) + [last] else Select(rows, job)
  {
    assert (rows + [last])[..|rows|] == rows;
  }

  lemma AssignedLast(rows: seq<Row>, last: Row)
    ensures Assigned(rows + [last]) == Assigned(rows)[last.name := last.value]
  {
    assert (rows + [last])[..|rows|] == rows;
  }

  // With one row per name the order of a select does not matter.
  lemma {:induction false} AnyOrder(a: seq<Row>, b: seq<Row>)
    requires forall x :: x in a <==> x in b
    requires forall x, y :: x in a && y in a && x.name == y.name ==> x == y
    ensures Assigned(a) == Assigned(b)
  {
    forall x | x in a ensures x.name in Assigned(a) && Assigned(a)[x.name] == x.value {
      AssignedUnique(a, x);
    }
    forall x | x in b ensures x.name in Assigned(b) && Assigned(b)[x.name] == x.value {
      AssignedUnique(b, x);
    }
    AssignedNames(a);
    AssignedNames(b);
  }

  lemma {:induction false} AssignedUnique(a: seq<Row>, x: Row)
    requires x in a && forall y :: y in a && y.name == x.name ==> y == x
    ensures x.name in Assigned(a) && Assigned(a)[x.name] == x.value
  {
    var front, last := a[..|a|-1], a[|a|-1];
    assert last in a;
    if last.name != x.name {
      assert x in front;
      AssignedUnique(front, x);
    }
  }

  lemma {:induction false} AssignedNames(a: seq<Row>)
    ensures forall n :: n in Assigned(a) ==> exists x :: x in a && x.name == n
  {
    if a != [] {
      AssignedNames(a[..|a|-1]);
      assert a[|a|-1] in a;
      forall n | n in Assigned(a) ensures exists x :: x in a && x.name == n {
        if n in Assigned(a[..|a|-1]) {
          var x :| x in a[..|a|-1] && x.name == n;
          assert x in a;
        }
      }
    }
  }
}
