// Printing the path of a job through nested jobnets (src/jalibs/jajobid.c) and
// resolving a path back to the job (src/jalibs/jajobnet.c).
module JobPath {
  import opened Common

  const DATA_LEN := 4096      // JA_MAX_DATA_LEN, the size of the static buffer
  const JOBNET_ID_MAX := 32   // JA_JOBNET_ID_LEN - 1

  // Rows of ja_run_job_table, ja_run_icon_jobnet_table and ja_run_jobnet_table.
  datatype Job = Job(id: nat, net: nat, main: nat, name: string)
  datatype Icon = Icon(id: nat, link: nat)
  datatype Jobnet = Jobnet(id: nat, name: string)

  datatype Tables = Tables(jobs: seq<Job>, icons: seq<Icon>, jobnets: seq<Jobnet>)

  // The selects: the first matching row.
  function JobById(jobs: seq<Job>, id: nat): (r: Option<Job>)
    ensures r.Some? ==> r.value in jobs && r.value.id == id
    ensures r.None? ==> forall j :: j in jobs ==> j.id != id
  {
    if jobs == [] then None else if jobs[0].id == id then Some(jobs[0]) else JobById(jobs[1..], id)
  }

  function JobByName(jobs: seq<Job>, net: nat, name: string): (r: Option<Job>)
    ensures r.Some? ==> r.value in jobs && r.value.net == net && r.value.name == name
    ensures r.None? ==> forall j :: j in jobs ==> !(j.net == net && j.name == name)
  {
    if jobs == [] then None
    else if jobs[0].net == net && jobs[0].name == name then Some(jobs[0])
    else JobByName(jobs[1..], net, name)
  }

  function IconByLink(icons: seq<Icon>, link: nat): (r: Option<Icon>)
    ensures r.Some? ==> r.value in icons && r.value.link == link
    ensures r.None? ==> forall i :: i in icons ==> i.link != link
  {
    if icons == [] then None else if icons[0].link == link then Some(icons[0]) else IconByLink(icons[1..], link)
  }

  function IconById(icons: seq<Icon>, id: nat): (r: Option<Icon>)
    ensures r.Some? ==> r.value in icons && r.value.id == id
    ensures r.None? ==> forall i :: i in icons ==> i.id != id
  {
    if icons == [] then None else if icons[0].id == id then Some(icons[0]) else IconById(icons[1..], id)
  }

  function NetName(nets: seq<Jobnet>, id: nat): (name: string)
    ensures (forall n :: n in nets ==> n.id != id) ==> name == ""
    ensures (exists n :: n in nets && n.id == id) ==> exists n :: n in nets && n.id == id && n.name == name
  {
    if nets == [] then "" else if nets[0].id == id then nets[0].name else NetName(nets[1..], id)
  }

  // ---- printing -------------------------------------------------------------

  // Segments from the job upwards, and the path they spell.
  function UpPath(up: seq<string>): string
  {
    if up == [] then "" else UpPath(up[1..]) + "/" + up[0]
  }

  // What the search loop collects with room characters left, and the main
  // jobnet of the last row it read (0 if it read none).
  datatype Climb = Climb(up: seq<string>, main: nat)

  function ClimbFrom(t: Tables, id: nat, main: nat, room: nat): Climb
    decreases room
  {
    match JobById(t.jobs, id)
    case None => Climb([], main)
    case Some(row) =>
      if room < |row.name| + 1 then Climb([], row.main)
      else if row.net == row.main then Climb([row.name], row.main)
      else match IconByLink(t.icons, row.net)
        case None => Climb([row.name], row.main)
        case Some(icon) =>
          var c := ClimbFrom(t, icon.id, row.main, room - (|row.name| + 1));
          Climb([row.name] + c.up, c.main)
  }

  // zbx_strlcpy into a buffer of JA_JOBNET_ID_LEN characters.
  function MainName(t: Tables, main: nat): string
  {
    var name := NetName(t.jobnets, main);
    if |name| <= JOBNET_ID_MAX then name else name[..JOBNET_ID_MAX]
  }

  // The row's name, or its first 32 characters.
  lemma MainNameIs(t: Tables, net: Jobnet)
    requires net in t.jobnets && forall n :: n in t.jobnets && n.id == net.id ==> n == net
    ensures MainName(t, net.id) <= net.name
    ensures |MainName(t, net.id)| == if |net.name| <= 32 then |net.name| else 32
  {
  }

  function Printed(t: Tables, id: nat): string
  {
    var c := ClimbFrom(t, id, 0, DATA_LEN - 1);
    var path := UpPath(c.up);
    if c.main != 0 && |MainName(t, c.main)| + |path| <= DATA_LEN - 1 then MainName(t, c.main) + path else path
  }

  method CopyBack(buf: array<char>, idx: nat, text: string) returns (idx': nat)
    requires |text| <= idx < buf.Length
    modifies buf
    ensures idx' == idx - |text|
    ensures buf[idx'..] == text + old(buf[idx..])
  {
    idx' := idx - |text|;
    forall i | 0 <= i < |text| {
      buf[idx' + i] := text[i];
    }
  }

  method StoreSegment(buf: array<char>, idx: nat, name: string, ghost path: string) returns (idx': nat)
    requires |name| + 1 <= idx < buf.Length && buf[idx..] == path + [NUL]
    modifies buf
    ensures idx' == idx - (|name| + 1)
    ensures buf[idx'..] == "/" + name + path + [NUL]
  {
    idx' := CopyBack(buf, idx, name);
    idx' := CopyBack(buf, idx', "/");
    assert "/" + (name + (path + [NUL])) == "/" + name + path + [NUL];
  }

  // What is still to be climbed once the job's own segment is stored.
  function ClimbRest(t: Tables, row: Job, room: nat): Climb
  {
    if row.net == row.main then Climb([], row.main)
    else match IconByLink(t.icons, row.net)
      case None => Climb([], row.main)
      case Some(icon) => ClimbFrom(t, icon.id, row.main, room)
  }

  lemma ClimbOne(t: Tables, id: nat, main: nat, room: nat, row: Job, done: seq<string>, all: Climb)
    requires JobById(t.jobs, id) == Some(row) && room >= |row.name| + 1
    requires all == Climb(done + ClimbFrom(t, id, main, room).up, ClimbFrom(t, id, main, room).main)
    ensures var rest := ClimbRest(t, row, room - (|row.name| + 1));
      all == Climb(done + [row.name] + rest.up, rest.main)
  {
    var rest := ClimbRest(t, row, room - (|row.name| + 1));
    assert ClimbFrom(t, id, main, room).up == [row.name] + rest.up;
    assert done + ([row.name] + rest.up) == done + [row.name] + rest.up;
  }

  // The search loop: segments are stored from the end of the buffer down to idx.
  method Search(t: Tables, innerJobId: nat, buf: array<char>) returns (idx: nat, main: nat, ghost up: seq<string>)
    requires buf.Length == DATA_LEN && buf[DATA_LEN-1] == NUL
    modifies buf
    ensures idx < buf.Length && buf[idx..] == UpPath(up) + [NUL]
    ensures ClimbFrom(t, innerJobId, 0, DATA_LEN - 1) == Climb(up, main)
  {
    idx, up := DATA_LEN - 1, [];
    var w: nat := innerJobId;
    main := 0;
    ghost var all := ClimbFrom(t, innerJobId, 0, DATA_LEN - 1);
    while true
      invariant idx < buf.Length && buf[idx..] == UpPath(up) + [NUL]
      invariant all == Climb(up + ClimbFrom(t, w, main, idx).up, ClimbFrom(t, w, main, idx).main)
      decreases idx
    {
      var row := JobById(t.jobs, w);
      if row.None? { break; }
      var len := |row.value.name|;
      if idx < len + 1 {
        main := row.value.main;
        break;
      }
      ClimbOne(t, w, main, idx, row.value, up, all);
      main := row.value.main;
      idx := StoreSegment(buf, idx, row.value.name, UpPath(up));
      UpPathAppend(up, row.value.name);
      up := up + [row.value.name];
      if row.value.net == row.value.main { break; }
      var icon := IconByLink(t.icons, row.value.net);
      if icon.None? { break; }
      w := icon.value.id;
    }
    assert up + [] == up;
  }

  // ja_get_jobid: fills the buffer from its end and returns where the text starts.
  method GetJobId(t: Tables, innerJobId: nat, buf: array<char>) returns (start: nat)
    requires buf.Length == DATA_LEN
    modifies buf
    ensures start < buf.Length
    ensures innerJobId == 0 ==> buf[start] == NUL
    ensures innerJobId > 0 ==> buf[start..] == Printed(t, innerJobId) + [NUL]
  {
    buf[0] := NUL;
    if innerJobId == 0 { return 0; }
    buf[DATA_LEN-1] := NUL;
    var idx, main, up := Search(t, innerJobId, buf);
    if main != 0 {
      var name := MainName(t, main);
      if idx >= |name| {
        idx := CopyBack(buf, idx, name);
        assert name + (UpPath(up) + [NUL]) == name + UpPath(up) + [NUL];
      }
    }
    start := idx;
  }

  lemma UpPathAppend(up: seq<string>, seg: string)
    ensures UpPath(up + [seg]) == "/" + seg + UpPath(up)
  {
    if up == [] {
      assert UpPath([seg][1..]) == "";
      assert UpPath([seg]) == "" + "/" + seg;
    } else {
      assert (up + [seg])[1..] == up[1..] + [seg];
      UpPathAppend(up[1..], seg);
      assert ("/" + seg + UpPath(up[1..])) + "/" + up[0] == "/" + seg + (UpPath(up[1..]) + "/" + up[0]);
    }
  }

  // ---- resolving ------------------------------------------------------------

  function TokenEnd(s: string): (e: nat)
    ensures e <= |s| && (e < |s| ==> s[e] == '/')
    ensures forall k :: 0 <= k < e ==> s[k] != '/'
  {
    if s == "" || s[0] == '/' then 0 else 1 + TokenEnd(s[1..])
  }

  // What successive calls of strtok with "/" return.
  function Tokens(s: string): seq<string>
    decreases |s|
  {
    if s == "" then []
    else if s[0] == '/' then Tokens(s[1..])
    else [s[..TokenEnd(s)]] + Tokens(s[TokenEnd(s)..])
  }

  // The loop's variables inner_job_id and link_inner_jobnet_id; None once a
  // select finds no row.
  datatype Place = Place(job: nat, net: nat)

  function Enter(t: Tables, p: Place, token: string): Option<Place>
  {
    var icon := IconById(t.icons, p.job);
    if p.job > 0 && icon.None? then None
    else
      var net := if p.job > 0 then icon.value.link else p.net;
      match JobByName(t.jobs, net, token)
      case None => None
      case Some(row) => Some(Place(row.id, net))
  }

  function Walk(t: Tables, net: nat, tokens: seq<string>): Option<Place>
  {
    if tokens == [] then Some(Place(0, net))
    else
      match Walk(t, net, tokens[..|tokens|-1])
      case None => None
      case Some(p) => Enter(t, p, tokens[|tokens|-1])
  }

  function Resolved(t: Tables, net: nat, path: string): nat
  {
    match Walk(t, net, Tokens(path)) case None => 0 case Some(p) => p.job
  }

  lemma WalkStops(t: Tables, net: nat, a: seq<string>, b: seq<string>)
    requires Walk(t, net, a).None?
    ensures Walk(t, net, a + b).None?
  {
    if b == [] {
      assert a + b == a;
    } else {
      assert (a + b)[..|a + b|-1] == a + b[..|b|-1];
      WalkStops(t, net, a, b[..|b|-1]);
    }
  }

  // ja_jobnet_get_job_id
  method GetInnerJobId(t: Tables, net: nat, path: CString) returns (id: nat)
    ensures id == if net == 0 || path.Null? then 0 else Resolved(t, net, path.s)
  {
    if net == 0 || path.Null? { return 0; }
    var rest := path.s;
    var link := net;
    id := 0;
    ghost var seen: seq<string> := [];
    while rest != ""
      invariant Walk(t, net, seen) == Some(Place(id, link))
      invariant Tokens(path.s) == seen + Tokens(rest)
      decreases |rest|
    {
      if rest[0] == '/' {
        rest := rest[1..];
        continue;
      }
      var tp := rest[..TokenEnd(rest)];
      rest := rest[TokenEnd(rest)..];
      ghost var before := seen;
      seen := before + [tp];
      assert seen[..|seen|-1] == before;
      assert seen + Tokens(rest) == before + ([tp] + Tokens(rest));
      if id > 0 {
        var icon := IconById(t.icons, id);
        if icon.None? {
          WalkStops(t, net, seen, Tokens(rest));
          return 0;
        }
        link := icon.value.link;
      }
      var row := JobByName(t.jobs, link, tp);
      if row.None? {
        WalkStops(t, net, seen, Tokens(rest));
        return 0;
      }
      id := row.value.id;
    }
    assert seen + [] == seen;
  }

  // ---- the round trip ---------------------------------------------------------

  // A well-formed nesting tree.
  ghost predicate WellFormed(t: Tables)
  {
    && (forall a, b :: a in t.jobs && b in t.jobs && a.id == b.id ==> a == b)
    && (forall a, b :: a in t.jobs && b in t.jobs && a.net == b.net && a.name == b.name ==> a == b)
    && (forall a :: a in t.jobs ==> a.id > 0 && a.net > 0 && a.name != "" && '/' !in a.name)
    && (forall a, b :: a in t.icons && b in t.icons && (a.id == b.id || a.link == b.link) ==> a == b)
    && (forall i, p, j :: i in t.icons && p in t.jobs && j in t.jobs && p.id == i.id && j.net == i.link
          ==> j.main == p.main && j.net != j.main)
  }

  // The jobs from one up to the main jobnet, each in the jobnet the next links.
  ghost predicate Chain(t: Tables, chain: seq<Job>)
  {
    && chain != []
    && (forall k :: 0 <= k < |chain| ==> chain[k] in t.jobs)
    && (forall k :: 0 <= k < |chain| - 1 ==>
          chain[k].net != chain[k].main && IconByLink(t.icons, chain[k].net) == Some(Icon(chain[k+1].id, chain[k].net)))
    && chain[|chain|-1].net == chain[|chain|-1].main
  }

  function Names(chain: seq<Job>): (names: seq<string>)
    ensures |names| == |chain|
  {
    if chain == [] then [] else [chain[0].name] + Names(chain[1..])
  }

  function Reversed(s: seq<string>): seq<string>
  {
    if s == [] then [] else Reversed(s[1..]) + [s[0]]
  }

  function Top(chain: seq<Job>): nat
    requires chain != []
  {
    chain[|chain|-1].net
  }

  // The longest run of trailing segments that fits in room characters.
  ghost predicate LongestRun(up: seq<string>, k: nat, room: nat)
  {
    && k <= |up| && |UpPath(up[..k])| <= room
    && (k < |up| ==> |UpPath(up[..k+1])| > room)
  }

  lemma UpPathFirst(up: seq<string>, k: nat)
    requires 0 < k <= |up|
    ensures up[..k] == [up[0]] + up[1..][..k-1]
    ensures UpPath(up[..k]) == UpPath(up[1..][..k-1]) + "/" + up[0]
  {
    assert up[..k][1..] == up[1..][..k-1];
  }

  // The chain as the search loop meets it.
  ghost predicate Lineage(t: Tables, chain: seq<Job>, main: nat)
  {
    && chain != [] && Top(chain) == main
    && (forall k :: 0 <= k < |chain| ==> JobById(t.jobs, chain[k].id) == Some(chain[k]) && chain[k].main == main)
    && (forall k :: 0 <= k < |chain| - 1 ==>
          chain[k].net != main && IconByLink(t.icons, chain[k].net) == Some(Icon(chain[k+1].id, chain[k].net)))
  }

  lemma MainsMatch(t: Tables, child: Job, parent: Job)
    requires WellFormed(t) && child in t.jobs && parent in t.jobs
    requires Icon(parent.id, child.net) in t.icons
    ensures child.main == parent.main && child.net != child.main
  {
  }

  lemma JobByIdIs(t: Tables, job: Job)
    requires WellFormed(t) && job in t.jobs
    ensures JobById(t.jobs, job.id) == Some(job)
  {
  }

  lemma {:induction false} ChainLineage(t: Tables, chain: seq<Job>)
    requires WellFormed(t) && Chain(t, chain)
    ensures Lineage(t, chain, Top(chain)) && Top(chain) > 0
  {
    JobByIdIs(t, chain[0]);
    if |chain| > 1 {
      var rest := chain[1..];
      assert forall k :: 0 <= k < |rest| ==> rest[k] == chain[k+1];
      ChainLineage(t, rest);
      MainsMatch(t, chain[0], chain[1]);
      assert forall k :: 0 < k < |chain| ==> chain[k] == rest[k-1];
    }
  }

  lemma {:induction false} ClimbRuns(t: Tables, chain: seq<Job>, top: nat, main: nat, room: nat) returns (k: nat)
    requires Lineage(t, chain, top)
    ensures LongestRun(Names(chain), k, room)
    ensures ClimbFrom(t, chain[0].id, main, room) == Climb(Names(chain)[..k], top)
  {
    var up, name := Names(chain), chain[0].name;
    UpPathFirst(up, 1);
    assert UpPath(up[1..][..0]) == "";
    if room < |name| + 1 {
      k := 0;
    } else if |chain| == 1 {
      k := 1;
      assert up == [name];
    } else {
      var rest := chain[1..];
      assert forall i :: 0 <= i < |rest| ==> rest[i] == chain[i+1];
      var j := ClimbRuns(t, rest, top, top, room - (|name| + 1));
      k := j + 1;
      UpPathFirst(up, k);
      if k < |up| {
        UpPathFirst(up, k + 1);
      }
    }
  }

  // What is printed: the main jobnet id, if room remains for it, and the
  // longest trailing run of segments the buffer holds.
  lemma PrintedRun(t: Tables, chain: seq<Job>) returns (k: nat)
    requires WellFormed(t) && Chain(t, chain)
    ensures LongestRun(Names(chain), k, 4095)
    ensures var path := UpPath(Names(chain)[..k]);
            var main := MainName(t, Top(chain));
            Printed(t, chain[0].id) == if |main| + |path| <= 4095 then main + path else path
  {
    ChainLineage(t, chain);
    k := ClimbRuns(t, chain, Top(chain), 0, DATA_LEN - 1);
  }

  lemma RunMonotone(up: seq<string>, k: nat)
    requires k <= |up|
    ensures |UpPath(up[..k])| <= |UpPath(up)|
  {
    if k > 0 {
      UpPathFirst(up, k);
      RunMonotone(up[1..], k - 1);
      assert up[1..] == up[1..][..|up|-1];
    }
  }

  lemma WholeRun(up: seq<string>, k: nat, room: nat)
    requires LongestRun(up, k, room) && |UpPath(up)| <= room
    ensures up[..k] == up
  {
    if k < |up| {
      RunMonotone(up, k + 1);
    }
  }

  // A path that fits with its main jobnet id is printed whole.
  lemma PrintedWhole(t: Tables, chain: seq<Job>)
    requires WellFormed(t) && Chain(t, chain)
    requires |MainName(t, Top(chain))| + |UpPath(Names(chain))| <= DATA_LEN - 1
    ensures Printed(t, chain[0].id) == MainName(t, Top(chain)) + UpPath(Names(chain))
  {
    var k := PrintedRun(t, chain);
    WholeRun(Names(chain), k, DATA_LEN - 1);
  }

  lemma {:induction false} TokensAppend(p: string, seg: string)
    requires seg != "" && '/' !in seg
    ensures Tokens(p + "/" + seg) == Tokens(p) + [seg]
    decreases |p|
  {
    var s := p + "/" + seg;
    if p == "" {
      assert s[1..] == seg;
      assert TokenEnd(seg) == |seg|;
      assert seg[..|seg|] == seg && seg[|seg|..] == "";
    } else if p[0] == '/' {
      assert s[1..] == p[1..] + "/" + seg;
      TokensAppend(p[1..], seg);
    } else {
      var e := TokenEnd(p);
      assert e == |p| ==> s[e] == '/';
      TokenEndIs(s, e);
      assert s[..e] == p[..e];
      assert s[e..] == p[e..] + "/" + seg;
      TokensAppend(p[e..], seg);
    }
  }

  lemma TokenEndIs(s: string, e: nat)
    requires e < |s| && s[e] == '/' && forall k :: 0 <= k < e ==> s[k] != '/'
    ensures TokenEnd(s) == e
  {
    if e > 0 {
      TokenEndIs(s[1..], e - 1);
    }
  }

  lemma {:induction false} TokensOfPath(up: seq<string>)
    requires forall k :: 0 <= k < |up| ==> up[k] != "" && '/' !in up[k]
    ensures Tokens(UpPath(up)) == Reversed(up)
  {
    if up != [] {
      TokensOfPath(up[1..]);
      TokensAppend(UpPath(up[1..]), up[0]);
    }
  }

  lemma {:induction false} WalkDown(t: Tables, chain: seq<Job>)
    requires WellFormed(t) && Chain(t, chain)
    ensures Walk(t, Top(chain), Reversed(Names(chain))) == Some(Place(chain[0].id, chain[0].net))
  {
    var rest := chain[1..];
    var tokens := Reversed(Names(chain));
    assert Names(chain)[1..] == Names(rest);
    assert tokens[..|tokens|-1] == Reversed(Names(rest));
    assert chain[0] in t.jobs;
    EnterIs(t, chain);
    if rest != [] {
      ChainRest(t, chain);
      WalkDown(t, rest);
    }
  }

  lemma ChainRest(t: Tables, chain: seq<Job>)
    requires Chain(t, chain) && |chain| > 1
    ensures Chain(t, chain[1..]) && Top(chain[1..]) == Top(chain)
  {
    var rest := chain[1..];
    assert forall i :: 0 <= i < |rest| ==> rest[i] == chain[i+1];
  }

  // The first job of a chain is found where the one above it leads.
  lemma EnterIs(t: Tables, chain: seq<Job>)
    requires WellFormed(t) && Chain(t, chain)
    ensures var place := if |chain| == 1 then Place(0, Top(chain)) else Place(chain[1].id, chain[1].net);
      Enter(t, place, chain[0].name) == Some(Place(chain[0].id, chain[0].net))
  {
    assert chain[0] in t.jobs;
    FoundByName(t, chain[0]);
    if |chain| > 1 {
      assert chain[1] in t.jobs;
      FoundById(t, Icon(chain[1].id, chain[0].net));
    }
  }

  lemma FoundByName(t: Tables, job: Job)
    requires WellFormed(t) && job in t.jobs
    ensures JobByName(t.jobs, job.net, job.name) == Some(job)
  {
  }

  lemma FoundById(t: Tables, icon: Icon)
    requires WellFormed(t) && icon in t.icons
    ensures IconById(t.icons, icon.id) == Some(icon)
  {
  }

  lemma NamesPlain(t: Tables, chain: seq<Job>)
    requires WellFormed(t) && forall k :: 0 <= k < |chain| ==> chain[k] in t.jobs
    ensures forall k :: 0 <= k < |chain| ==> Names(chain)[k] != "" && '/' !in Names(chain)[k]
  {
    if chain != [] {
      assert chain[0] in t.jobs;
      NamesPlain(t, chain[1..]);
    }
  }

  // The path printed for a job, without its main jobnet id, resolves to the job.
  lemma PrintThenResolve(t: Tables, chain: seq<Job>)
    requires WellFormed(t) && Chain(t, chain)
    requires |MainName(t, Top(chain))| + |UpPath(Names(chain))| <= DATA_LEN - 1
    ensures MainName(t, Top(chain)) <= Printed(t, chain[0].id)
    ensures Resolved(t, Top(chain), Printed(t, chain[0].id)[|MainName(t, Top(chain))|..]) == chain[0].id
  {
    PrintedWhole(t, chain);
    NamesPlain(t, chain);
    TokensOfPath(Names(chain));
    WalkDown(t, chain);
  }

  lemma ExtendChain(t: Tables, above: seq<Job>, icon: Icon, row: Job)
    requires WellFormed(t) && Chain(t, above) && row in t.jobs && icon in t.icons
    requires icon.id == above[0].id && icon.link == row.net
    ensures Chain(t, [row] + above) && Top([row] + above) == Top(above)
  {
    var chain := [row] + above;
    assert above[0] in t.jobs;
    MainsMatch(t, row, above[0]);
    var found := IconByLink(t.icons, row.net);
    assert found == Some(icon);
    assert forall k :: 0 < k < |chain| ==> chain[k] == above[k-1];
  }

  // The tokens lead down a chain of jobs with their names.
  ghost predicate LeadsTo(t: Tables, net: nat, tokens: seq<string>, chain: seq<Job>)
  {
    && Chain(t, chain) && Top(chain) == net && Reversed(Names(chain)) == tokens
    && Walk(t, net, tokens) == Some(Place(chain[0].id, chain[0].net))
  }

  ghost predicate MainNet(t: Tables, net: nat) { forall j :: j in t.jobs && j.net == net ==> j.main == net }

  // A resolved path leads down a chain of jobs named by its tokens.
  lemma {:induction false} WalkIsChain(t: Tables, net: nat, tokens: seq<string>) returns (chain: seq<Job>)
    requires WellFormed(t) && MainNet(t, net) && tokens != [] && Walk(t, net, tokens).Some?
    ensures LeadsTo(t, net, tokens, chain)
  {
    var front, token := tokens[..|tokens|-1], tokens[|tokens|-1];
    assert front + [token] == tokens;
    WalkLast(t, net, front, token);
    if front == [] {
      chain := EnterStarts(t, net, token);
    } else {
      var above := WalkIsChain(t, net, front);
      chain := LeadsFurther(t, net, front, above, token);
    }
  }

  lemma WalkLast(t: Tables, net: nat, front: seq<string>, token: string)
    ensures Walk(t, net, front + [token]) ==
      if Walk(t, net, front).None? then None else Enter(t, Walk(t, net, front).value, token)
  {
    assert (front + [token])[..|front|] == front;
  }

  lemma LeadsFurther(t: Tables, net: nat, front: seq<string>, above: seq<Job>, token: string) returns (chain: seq<Job>)
    requires WellFormed(t) && LeadsTo(t, net, front, above) && Walk(t, net, front + [token]).Some?
    ensures LeadsTo(t, net, front + [token], chain)
  {
    WalkLast(t, net, front, token);
    chain := EnterExtends(t, above, Place(above[0].id, above[0].net), token);
    ReversedFirst(token, Names(above));
  }

  lemma ReversedFirst(x: string, s: seq<string>)
    ensures Reversed([x] + s) == Reversed(s) + [x]
  {
    assert ([x] + s)[1..] == s;
  }

  lemma EnterStarts(t: Tables, net: nat, token: string) returns (chain: seq<Job>)
    requires WellFormed(t) && MainNet(t, net) && Enter(t, Place(0, net), token).Some?
    ensures LeadsTo(t, net, [token], chain)
  {
    assert [token][..0] == [];
    var row := JobByName(t.jobs, net, token).value;
    chain := [row];
    assert Names(chain)[1..] == [];
  }

  lemma EnterExtends(t: Tables, above: seq<Job>, p: Place, token: string) returns (chain: seq<Job>)
    requires WellFormed(t) && Chain(t, above) && p == Place(above[0].id, above[0].net) && Enter(t, p, token).Some?
    ensures Chain(t, chain) && Top(chain) == Top(above) && Names(chain) == [token] + Names(above)
    ensures Enter(t, p, token) == Some(Place(chain[0].id, chain[0].net))
  {
    assert above[0] in t.jobs;
    var icon := IconById(t.icons, p.job).value;
    var row := JobByName(t.jobs, icon.link, token).value;
    ExtendChain(t, above, icon, row);
    chain := [row] + above;
    assert chain[1..] == above;
  }

  lemma ReversedTwice(s: seq<string>)
    ensures Reversed(Reversed(s)) == s
  {
    if s != [] {
      ReversedLast(Reversed(s[1..]), s[0]);
      ReversedTwice(s[1..]);
    }
  }

  lemma ReversedLast(s: seq<string>, x: string)
    ensures Reversed(s + [x]) == [x] + Reversed(s)
  {
    if s == [] {
      assert Reversed([x][1..]) == [];
    } else {
      assert (s + [x])[1..] == s[1..] + [x];
      ReversedLast(s[1..], x);
    }
  }

  // Printing the job a path resolves to gives the path with single slashes,
  // under the id of the jobnet it was resolved in.
  lemma ResolveThenPrint(t: Tables, net: nat, path: string)
    requires WellFormed(t) && MainNet(t, net)
    requires Resolved(t, net, path) != 0
    requires |MainName(t, net)| + |UpPath(Reversed(Tokens(path)))| <= DATA_LEN - 1
    ensures Printed(t, Resolved(t, net, path)) == MainName(t, net) + UpPath(Reversed(Tokens(path)))
  {
    var chain := WalkIsChain(t, net, Tokens(path));
    ReversedTwice(Names(chain));
    PrintedWhole(t, chain);
  }
}
