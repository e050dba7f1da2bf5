// The statement journal of the job agent (src/jobarg_agent/jajournal.c). A
// statement is appended as "<time> <length> <text>\n"; the loader reads the
// header with a scanf of "%*s %d " and then exactly <length> characters.
module Journal {
  import opened Common

  const BUFFER := 4096  // the loader's buffer, terminator included

  // isspace in the C locale: tab, line feed, vertical tab, form feed, carriage return, space.
  predicate Blank(c: char) { c == ' ' || 9 <= c as int <= 13 }

  // What fprintf writes for one statement.
  function Record(time: nat, sql: string): string
  {
    Digits(time) + " " + Digits(|sql|) + " " + sql + "\n"
  }

  // A statement of one line makes one line, which starts with the time.
  lemma OneLineEach(time: nat, sql: string)
    requires '\n' !in sql
    ensures var r := Record(time, sql); Digits(time) + " " <= r && r[|r|-1] == '\n' && '\n' !in r[..|r|-1]
  {
    var r := Record(time, sql);
    assert r[..|r|-1] == Digits(time) + " " + Digits(|sql|) + " " + sql;
  }

  datatype Entry = Entry(time: nat, sql: string)

  function File(log: seq<Entry>): string
  {
    if log == [] then "" else Record(log[0].time, log[0].sql) + File(log[1..])
  }

  function Texts(log: seq<Entry>): (s: seq<string>)
    ensures |s| == |log|
  {
    seq(|log|, i requires 0 <= i < |log| => log[i].sql)
  }

  // scanf's white space directive.
  function SkipBlanks(s: string): (r: string)
    ensures |r| <= |s| && (r == "" || !Blank(r[0]))
  {
    if s == "" || !Blank(s[0]) then s else SkipBlanks(s[1..])
  }

  // scanf's %*s, once leading white space is gone.
  function SkipToken(s: string): (r: string)
    ensures |r| <= |s| && (s != "" && !Blank(s[0]) ==> |r| < |s|)
  {
    if s == "" || Blank(s[0]) then s else SkipToken(s[1..])
  }

  datatype Number = NotANumber | Number(value: nat, rest: string)

  function ReadDigits(s: string, acc: nat): (r: Number)
    ensures r.Number? && |r.rest| <= |s|
  {
    if s == "" || !Digit(s[0]) then Number(acc, s)
    else ReadDigits(s[1..], 10 * acc + Value(s[0]))
  }

  function ReadNumber(s: string): (r: Number)
    ensures r.Number? ==> |r.rest| <= |s|
  {
    if s == "" || !Digit(s[0]) then NotANumber else ReadDigits(s, 0)
  }

  // The header directive "%*s %d ": the length and what is left to read. The
  // loader reads a longer statement past its buffer, which the language leaves
  // undefined; here such a length ends the load.
  function ReadHeader(s: string): (r: Number)
    ensures r.Number? ==> |r.rest| < |s| && r.value < BUFFER
  {
    var token := SkipBlanks(s);
    if token == "" then NotANumber
    else
      var n := ReadNumber(SkipBlanks(SkipToken(token)));
      if n.Number? && n.value < BUFFER then Number(n.value, SkipBlanks(n.rest)) else NotANumber
  }

  function Min(a: nat, b: nat): nat { if a < b then a else b }

  // The statements the loader hands to the database, in order.
  function Scan(s: string): seq<string>
    decreases |s|
  {
    var h := ReadHeader(s);
    if h.NotANumber? then []
    else
      var n := Min(h.value, |h.rest|);
      [h.rest[..n]] + Scan(h.rest[n..])
  }

  // Admissible statements fit the buffer; a solid one is empty or starts with a non-blank.
  predicate Fits(sql: string) { |sql| < 4096 }

  predicate Solid(sql: string) { sql == "" || !Blank(sql[0]) }

  lemma ReadDigitsOver(digits: string, rest: string, acc: nat)
    requires forall c :: c in digits ==> Digit(c)
    requires rest == "" || !Digit(rest[0])
    ensures ReadDigits(digits + rest, acc) == Number(Fold(digits, acc), rest)
  {
    if digits == "" {
      assert digits + rest == rest;
    } else {
      assert (digits + rest)[1..] == digits[1..] + rest;
      ReadDigitsOver(digits[1..], rest, 10 * acc + Value(digits[0]));
    }
  }

  lemma SkipTokenOver(token: string, rest: string)
    requires forall c :: c in token ==> !Blank(c)
    requires rest == "" || Blank(rest[0])
    ensures SkipToken(token + rest) == rest
  {
    if token == "" {
      assert token + rest == rest;
    } else {
      assert (token + rest)[1..] == token[1..] + rest;
      SkipTokenOver(token[1..], rest);
    }
  }

  // Behind the time of a record, its length is read and the rest is left.
  lemma HeaderParts(time: nat, sql: string, rest: string)
    ensures var token := SkipBlanks(Record(time, sql) + rest);
      token != "" && ReadNumber(SkipBlanks(SkipToken(token))) == Number(|sql|, " " + (sql + "\n" + rest))
  {
    var body := sql + "\n" + rest;
    var afterLength := " " + body;
    var afterTime := " " + (Digits(|sql|) + afterLength);
    var file := Record(time, sql) + rest;
    assert file == Digits(time) + afterTime;
    assert Digit(file[0]);
    SkipTokenOver(Digits(time), afterTime);
    var number := Digits(|sql|) + afterLength;
    assert afterTime[1..] == number && Digit(number[0]);
    assert SkipBlanks(afterTime) == number;
    ReadDigitsOver(Digits(|sql|), afterLength, 0);
    FoldDigits(|sql|);
  }

  // The header of a record is read back, whatever the statement looks like, if
  // the buffer holds the statement; otherwise the load ends there.
  lemma HeaderRead(time: nat, sql: string, rest: string)
    ensures ReadHeader(Record(time, sql) + rest)
         == if Fits(sql) then Number(|sql|, SkipBlanks(sql + "\n" + rest)) else NotANumber
  {
    HeaderParts(time, sql, rest);
    assert (" " + (sql + "\n" + rest))[1..] == sql + "\n" + rest;
  }

  // The line end of a record is white space to the next header.
  lemma ScanAfterLineEnd(s: string)
    ensures Scan("\n" + s) == Scan(s)
  {
    assert ("\n" + s)[1..] == s;
  }

  lemma FileStart(log: seq<Entry>)
    ensures SkipBlanks(File(log)) == File(log)
  {
    if log != [] {
      var digits := Digits(log[0].time);
      assert File(log)[0] == digits[0] && Digit(digits[0]);
    }
  }

  lemma ScanRecord(entry: Entry, log: seq<Entry>)
    requires Fits(entry.sql) && Solid(entry.sql)
    ensures Scan(Record(entry.time, entry.sql) + File(log)) == [entry.sql] + Scan(File(log))
  {
    var sql, rest := entry.sql, File(log);
    HeaderRead(entry.time, sql, rest);
    ScanAfterLineEnd(rest);
    if sql == "" {
      FileStart(log);
      assert (sql + "\n" + rest)[1..] == rest;
      assert rest[0..] == rest;
    } else {
      var body := sql + "\n" + rest;
      assert body[..|sql|] == sql;
      assert body[|sql|..] == "\n" + rest;
    }
  }

  // A statement with a leading blank is read from its first non-blank on.
  lemma BlankStartIsLost(entry: Entry, log: seq<Entry>)
    requires Fits(entry.sql) && !Solid(entry.sql)
    ensures var read := Scan(Record(entry.time, entry.sql) + File(log)); read != [] && read[0] != entry.sql
  {
    HeaderRead(entry.time, entry.sql, File(log));
  }

  // A statement too long for the buffer ends the load: it and all after it are lost.
  lemma LongIsLost(entry: Entry, log: seq<Entry>)
    requires !Fits(entry.sql)
    ensures Scan(Record(entry.time, entry.sql) + File(log)) == []
  {
    HeaderRead(entry.time, entry.sql, File(log));
  }

  // Framing is faithful exactly when every statement fits the buffer and none
  // starts with white space, whatever else the statements hold: line ends,
  // digits, record headers.
  lemma {:induction false} FramingRoundTrip(log: seq<Entry>)
    ensures Scan(File(log)) == Texts(log) <==> forall i :: 0 <= i < |log| ==> Fits(log[i].sql) && Solid(log[i].sql)
  {
    if log != [] {
      var rest := log[1..];
      FramingRoundTrip(rest);
      assert Texts(log) == [log[0].sql] + Texts(rest);
      if !Fits(log[0].sql) {
        LongIsLost(log[0], rest);
      } else if Solid(log[0].sql) {
        ScanRecord(log[0], rest);
        assert Scan(File(log))[1..] == Scan(File(rest)) && Texts(log)[1..] == Texts(rest);
        assert forall i :: 0 < i < |log| ==> log[i] == rest[i-1];
        assert forall i :: 0 <= i < |rest| ==> rest[i] == log[i+1];
      } else {
        BlankStartIsLost(log[0], rest);
      }
    }
  }

  lemma FileAppend(log: seq<Entry>, entry: Entry)
    ensures File(log + [entry]) == File(log) + Record(entry.time, entry.sql)
  {
    if log == [] {
      assert File([entry][1..]) == "";
    } else {
      assert (log + [entry])[1..] == log[1..] + [entry];
      FileAppend(log[1..], entry);
    }
  }
}
