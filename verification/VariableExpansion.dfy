// Expansion of job controller variables (ja_replace_variable in
// src/jalibs/javalue.c) into a bounded buffer.
module VariableExpansion {
  import opened Common

  const NAME_MAX := 128  // JA_VALUE_NAME_LEN - 1

  datatype Variable = Variable(name: string, value: string)

  // ---- the language ---------------------------------------------------------

  // c, $$, ${name} and $name.
  datatype Token = Plain(c: char) | Dollar | Braced(name: string) | Bare(name: string)

  function Spelling(t: Token): string
  {
    match t
    case Plain(c) => [c]
    case Dollar => "$$"
    case Braced(n) => "${" + n + "}"
    case Bare(n) => "$" + n
  }

  function Spellings(ts: seq<Token>): string
  {
    if ts == [] then "" else Spelling(ts[0]) + Spellings(ts[1..])
  }

  predicate EndsName(c: char) { c == '$' || c == '\r' || c == '\n' }

  predicate NameChars(n: string)
  {
    n != "" && forall i :: 0 <= i < |n| ==> !EndsName(n[i]) && n[i] != '}'
  }

  // A bare name runs up to a dollar, a line end or the end of the text.
  predicate Legal(t: Token, next: string)
  {
    match t
    case Plain(c) => c != '$'
    case Dollar => true
    case Braced(n) => NameChars(n)
    case Bare(n) => NameChars(n) && n[0] != '{' && (next == "" || EndsName(next[0]))
  }

  // ts spells s, each token legal before the text of the tokens after it.
  predicate Spells(ts: seq<Token>, s: string)
  {
    if ts == [] then s == ""
    else
      var next := Spellings(ts[1..]);
      s == Spelling(ts[0]) + next && Legal(ts[0], next) && Spells(ts[1..], next)
  }

  // ---- its meaning ------------------------------------------------------------

  function Lookup(vars: seq<Variable>, name: string): Option<string>
  {
    if vars == [] then None
    else if vars[0].name == name then Some(vars[0].value)
    else Lookup(vars[1..], name)
  }

  function Meaning(vars: seq<Variable>, t: Token): Option<string>
  {
    match t
    case Plain(c) => Some([c])
    case Dollar => Some("$")
    case _ => if |t.name| <= NAME_MAX then Lookup(vars, t.name) else None
  }

  function Meanings(vars: seq<Variable>, ts: seq<Token>): Option<string>
  {
    if ts == [] then Some("")
    else Join(Meaning(vars, ts[0]), Meanings(vars, ts[1..]))
  }

  function Join(a: Option<string>, b: Option<string>): Option<string>
  {
    if a.Some? && b.Some? then Some(a.value + b.value) else None
  }

  // ---- a reader for it ----------------------------------------------------------

  // Where the name starting at i stops.
  function NameEnd(s: string, i: nat): (j: nat)
    requires i <= |s|
    ensures i <= j <= |s|
    ensures forall k :: i <= k < j ==> !EndsName(s[k]) && s[k] != '}'
    ensures j < |s| ==> EndsName(s[j]) || s[j] == '}'
    decreases |s| - i
  {
    if i == |s| || EndsName(s[i]) || s[i] == '}' then i else NameEnd(s, i + 1)
  }

  // The token at position i and the position after it.
  datatype Lexeme = Bad | Lexeme(token: Token, next: nat)

  function Lex(s: string, i: nat): (l: Lexeme)
    requires i < |s|
    ensures l.Lexeme? ==> i < l.next <= |s|
  {
    if s[i] != '$' then Lexeme(Plain(s[i]), i + 1)
    else if i + 1 < |s| && s[i+1] == '$' then Lexeme(Dollar, i + 2)
    else if i + 1 < |s| && s[i+1] == '{' then
      var j := NameEnd(s, i + 2);
      if i + 2 < j < |s| && s[j] == '}' then Lexeme(Braced(s[i+2..j]), j + 1) else Bad
    else
      var j := NameEnd(s, i + 1);
      if i + 1 < j && (j == |s| || s[j] != '}') then Lexeme(Bare(s[i+1..j]), j) else Bad
  }

  datatype Reading = Unreadable | Tokens(ts: seq<Token>)

  function Read(s: string, i: nat): Reading
    requires i <= |s|
    decreases |s| - i
  {
    if i == |s| then Tokens([])
    else
      var l := Lex(s, i);
      if l.Bad? then Unreadable
      else
        var rest := Read(s, l.next);
        if rest.Unreadable? then Unreadable else Tokens([l.token] + rest.ts)
  }

  lemma LexSpells(s: string, i: nat)
    requires i < |s| && Lex(s, i).Lexeme?
    ensures s[i..] == Spelling(Lex(s, i).token) + s[Lex(s, i).next..]
    ensures Legal(Lex(s, i).token, s[Lex(s, i).next..])
  {
  }

  lemma SpellsText(ts: seq<Token>, s: string)
    requires Spells(ts, s)
    ensures s == Spellings(ts)
  {
  }

  lemma {:induction false} ReadSound(s: string, i: nat)
    requires i <= |s| && Read(s, i).Tokens?
    ensures Spells(Read(s, i).ts, s[i..])
    decreases |s| - i
  {
    if i < |s| {
      var l, ts := Lex(s, i), Read(s, i).ts;
      LexSpells(s, i);
      ReadSound(s, l.next);
      assert ts[1..] == Read(s, l.next).ts;
      SpellsText(ts[1..], s[l.next..]);
    }
  }

  lemma NameEndIs(s: string, i: nat, j: nat)
    requires i <= j <= |s|
    requires forall k :: i <= k < j ==> !EndsName(s[k]) && s[k] != '}'
    requires j < |s| ==> EndsName(s[j]) || s[j] == '}'
    ensures NameEnd(s, i) == j
    decreases j - i
  {
    if i < j {
      NameEndIs(s, i + 1, j);
    }
  }

  // text stands at position i of s.
  ghost predicate At(s: string, i: nat, text: string)
  {
    i + |text| <= |s| && forall k :: 0 <= k < |text| ==> s[i+k] == text[k]
  }

  lemma LexBraced(s: string, i: nat, n: string)
    requires NameChars(n) && i + |n| + 3 <= |s|
    requires s[i] == '$' && s[i+1] == '{' && At(s, i + 2, n) && s[i+2+|n|] == '}'
    ensures Lex(s, i) == Lexeme(Braced(n), i + |n| + 3)
  {
    var j := i + 2 + |n|;
    assert forall k :: i + 2 <= k < j ==> s[k] == n[k-i-2];
    NameEndIs(s, i + 2, j);
    assert s[i+2..j] == n;
  }

  lemma LexBare(s: string, i: nat, n: string)
    requires NameChars(n) && n[0] != '{' && i + |n| + 1 <= |s|
    requires s[i] == '$' && At(s, i + 1, n) && (i + 1 + |n| < |s| ==> EndsName(s[i+1+|n|]))
    ensures Lex(s, i) == Lexeme(Bare(n), i + |n| + 1)
  {
    var j := i + 1 + |n|;
    assert forall k :: i + 1 <= k < j ==> s[k] == n[k-i-1];
    assert s[i+1] == n[0];
    NameEndIs(s, i + 1, j);
    assert s[i+1..j] == n;
  }

  lemma LexComplete(s: string, i: nat, t: Token, next: string)
    requires i <= |s| && s[i..] == Spelling(t) + next && Legal(t, next)
    ensures i < |s| && Lex(s, i) == Lexeme(t, i + |Spelling(t)|)
  {
    var text := Spelling(t);
    forall k | 0 <= k < |text| ensures s[i+k] == text[k] {
      assert s[i..][k] == s[i+k];
    }
    assert i + |text| < |s| ==> s[i..][|text|] == s[i+|text|];
    match t
    case Plain(_) =>
    case Dollar => assert s[i+1] == text[1];
    case Braced(n) =>
      forall k | 0 <= k < |n| ensures s[i+2+k] == n[k] {
        assert s[i+(2+k)] == text[2+k];
      }
      assert s[i+1] == text[1];
      assert s[i+(2+|n|)] == text[2+|n|];
      LexBraced(s, i, n);
    case Bare(n) =>
      forall k | 0 <= k < |n| ensures s[i+1+k] == n[k] {
        assert s[i+(1+k)] == text[1+k];
      }
      LexBare(s, i, n);
  }

  lemma DropText(s: string, i: nat, text: string, next: string)
    requires i <= |s| && s[i..] == text + next
    ensures i + |text| <= |s| && s[i+|text|..] == next
  {
    assert s[i+|text|..] == s[i..][|text|..];
  }

  lemma ReadStep(s: string, i: nat, ts: seq<Token>, j: nat)
    requires i < |s| && ts != [] && i < j <= |s| && Lex(s, i) == Lexeme(ts[0], j) && Read(s, j) == Tokens(ts[1..])
    ensures Read(s, i) == Tokens(ts)
  {
    assert [ts[0]] + ts[1..] == ts;
  }

  lemma FirstToken(s: string, i: nat, ts: seq<Token>)
    requires ts != [] && i <= |s| && Spells(ts, s[i..])
    ensures var j := i + |Spelling(ts[0])|;
      i < j <= |s| && Lex(s, i) == Lexeme(ts[0], j) && Spells(ts[1..], s[j..])
  {
    LexComplete(s, i, ts[0], Spellings(ts[1..]));
    DropText(s, i, Spelling(ts[0]), Spellings(ts[1..]));
  }

  // The language is unambiguous: the reader finds the only spelling.
  lemma {:induction false} ReadComplete(s: string, i: nat, ts: seq<Token>)
    requires i <= |s| && Spells(ts, s[i..])
    ensures Read(s, i) == Tokens(ts)
    decreases |ts|
  {
    if ts == [] {
      assert |s[i..]| == 0;
    } else {
      FirstToken(s, i, ts);
      var j := i + |Spelling(ts[0])|;
      ReadComplete(s, j, ts[1..]);
      ReadStep(s, i, ts, j);
    }
  }

  // ---- laws ---------------------------------------------------------------------

  function Doubled(s: string): string
  {
    if s == "" then "" else (if s[0] == '$' then "$$" else [s[0]]) + Doubled(s[1..])
  }

  function Quoted(s: string): seq<Token>
  {
    if s == "" then [] else [if s[0] == '$' then Dollar else Plain(s[0])] + Quoted(s[1..])
  }

  // Doubling every dollar protects any text from expansion.
  lemma {:induction false} DoubledIsLiteral(vars: seq<Variable>, s: string)
    ensures Spells(Quoted(s), Doubled(s)) && Meanings(vars, Quoted(s)) == Some(s)
  {
    if s != "" {
      DoubledIsLiteral(vars, s[1..]);
      var ts := Quoted(s);
      assert [s[0]] + s[1..] == s;
      assert ts[1..] == Quoted(s[1..]);
      SpellsText(ts[1..], Doubled(s[1..]));
    }
  }

  lemma JoinAssociates(a: Option<string>, b: Option<string>, c: Option<string>)
    ensures Join(Join(a, b), c) == Join(a, Join(b, c))
  {
    if a.Some? && b.Some? && c.Some? {
      assert (a.value + b.value) + c.value == a.value + (b.value + c.value);
    }
  }

  lemma {:induction false} MeaningsAppend(vars: seq<Variable>, a: seq<Token>, b: seq<Token>)
    ensures Meanings(vars, a + b) == Join(Meanings(vars, a), Meanings(vars, b))
  {
    if a == [] {
      assert a + b == b;
      if Meanings(vars, b).Some? {
        assert "" + Meanings(vars, b).value == Meanings(vars, b).value;
      }
    } else {
      assert (a + b)[1..] == a[1..] + b;
      MeaningsAppend(vars, a[1..], b);
      JoinAssociates(Meaning(vars, a[0]), Meanings(vars, a[1..]), Meanings(vars, b));
    }
  }

  // ---- the method -----------------------------------------------------------------

  // What the expansion of src is, if it has one.
  function Expansion(vars: seq<Variable>, src: string): Option<string>
  {
    var r := Read(src, 0);
    if r.Unreadable? then None else Meanings(vars, r.ts)
  }

  // ts is a spelling of the text and means out.
  predicate Means(vars: seq<Variable>, ts: seq<Token>, src: string, out: string)
  {
    Spells(ts, src) && Meanings(vars, ts) == Some(out)
  }

  lemma ReadMeans(vars: seq<Variable>, src: string, out: string)
    requires Expansion(vars, src) == Some(out)
    ensures Means(vars, Read(src, 0).ts, src, out)
  {
    assert src[0..] == src;
    ReadSound(src, 0);
  }

  lemma MeansRead(vars: seq<Variable>, ts: seq<Token>, src: string, out: string)
    requires Means(vars, ts, src, out)
    ensures Expansion(vars, src) == Some(out)
  {
    assert src[0..] == src;
    ReadComplete(src, 0, ts);
  }

  // The expansion is the meaning of the text's spelling.
  lemma ExpansionIsMeaning(vars: seq<Variable>, src: string, out: string)
    ensures Expansion(vars, src) == Some(out) <==> exists ts :: Means(vars, ts, src, out)
  {
    if Expansion(vars, src) == Some(out) {
      ReadMeans(vars, src, out);
    }
    if ts :| Means(vars, ts, src, out) {
      MeansRead(vars, ts, src, out);
    }
  }

  // ---- single variables ---------------------------------------------------------------

  // The first variable with that name.
  ghost predicate First(vars: seq<Variable>, i: int, name: string)
  {
    0 <= i < |vars| && vars[i].name == name && forall k :: 0 <= k < i ==> vars[k].name != name
  }

  lemma {:induction false} LookupIs(vars: seq<Variable>, name: string)
    ensures Lookup(vars, name).None? <==> forall i :: 0 <= i < |vars| ==> vars[i].name != name
    ensures forall i :: First(vars, i, name) ==> Lookup(vars, name) == Some(vars[i].value)
  {
    if vars != [] {
      LookupIs(vars[1..], name);
      assert forall i :: 0 < i < |vars| ==> vars[i] == vars[1..][i-1];
      forall i | First(vars, i, name) && i > 0 ensures Lookup(vars, name) == Some(vars[i].value) {
        assert First(vars[1..], i - 1, name);
      }
    }
  }

  lemma SpellsOne(t: Token, ts: seq<Token>, rest: string)
    requires Spells(ts, rest) && Legal(t, rest)
    ensures Spells([t] + ts, Spelling(t) + rest)
  {
    SpellsText(ts, rest);
    assert ([t] + ts)[1..] == ts;
  }

  // The reading of a text that starts with a token.
  lemma ReadOne(t: Token, rest: string)
    requires Legal(t, rest)
    ensures Read(Spelling(t) + rest, 0) == if Read(rest, 0).Unreadable? then Unreadable else Tokens([t] + Read(rest, 0).ts)
  {
    var text := Spelling(t) + rest;
    assert text[0..] == text && rest[0..] == rest;
    LexComplete(text, 0, t, rest);
    if Read(rest, 0).Tokens? {
      ReadSound(rest, 0);
      SpellsOne(t, Read(rest, 0).ts, rest);
      ReadComplete(text, 0, [t] + Read(rest, 0).ts);
    } else if Read(text, 0).Tokens? {
      var ts := Read(text, 0).ts;
      ReadSound(text, 0);
      FirstToken(text, 0, ts);
      assert text[|Spelling(t)|..] == rest;
      ReadComplete(rest, 0, ts[1..]);
    }
  }

  lemma TokenExpands(vars: seq<Variable>, t: Token, rest: string)
    requires Legal(t, rest)
    ensures Expansion(vars, Spelling(t) + rest) == Join(Meaning(vars, t), Expansion(vars, rest))
  {
    ReadOne(t, rest);
    if Read(rest, 0).Tokens? {
      assert ([t] + Read(rest, 0).ts)[1..] == Read(rest, 0).ts;
    }
  }

  // A name as the text may give it.
  predicate Name(n: string)
  {
    0 < |n| <= 128 && forall k :: 0 <= k < |n| ==> n[k] !in {'$', '\r', '\n', '}'}
  }

  // ${name} stands for the value of the first variable of that name, wherever it is.
  lemma BracedValue(vars: seq<Variable>, n: string, rest: string, i: nat)
    requires Name(n) && First(vars, i, n)
    ensures Expansion(vars, "${" + n + "}" + rest) == Join(Some(vars[i].value), Expansion(vars, rest))
  {
    LookupIs(vars, n);
    TokenExpands(vars, Braced(n), rest);
  }

  // So does $name before a dollar, a line end or the end of the text.
  lemma BareValue(vars: seq<Variable>, n: string, rest: string, i: nat)
    requires Name(n) && n[0] != '{' && First(vars, i, n) && (rest == "" || rest[0] in {'$', '\r', '\n'})
    ensures Expansion(vars, "$" + n + rest) == Join(Some(vars[i].value), Expansion(vars, rest))
  {
    LookupIs(vars, n);
    TokenExpands(vars, Bare(n), rest);
  }

  // Alone, it is the whole text's expansion.
  lemma WholeValue(vars: seq<Variable>, n: string, i: nat)
    requires Name(n) && First(vars, i, n)
    ensures Expansion(vars, "${" + n + "}") == Some(vars[i].value)
    ensures n[0] != '{' ==> Expansion(vars, "$" + n) == Some(vars[i].value)
  {
    assert "${" + n + "}" + "" == "${" + n + "}" && vars[i].value + "" == vars[i].value;
    BracedValue(vars, n, "", i);
    if n[0] != '{' {
      assert "$" + n + "" == "$" + n;
      BareValue(vars, n, "", i);
    }
  }

  // A name that is too long or that no variable has is refused.
  lemma UnknownRefused(vars: seq<Variable>, n: string, rest: string)
    requires n != "" && forall k :: 0 <= k < |n| ==> n[k] !in {'$', '\r', '\n', '}'}
    requires |n| > 128 || forall i :: 0 <= i < |vars| ==> vars[i].name != n
    ensures Expansion(vars, "${" + n + "}" + rest).None?
    ensures n[0] != '{' && (rest == "" || rest[0] in {'$', '\r', '\n'}) ==> Expansion(vars, "$" + n + rest).None?
  {
    LookupIs(vars, n);
    TokenExpands(vars, Braced(n), rest);
    if n[0] != '{' && (rest == "" || rest[0] in {'$', '\r', '\n'}) {
      TokenExpands(vars, Bare(n), rest);
    }
  }

  // A text that is read starts with a token.
  lemma StartsWithToken(text: string) returns (t: Token, rest: string)
    requires text != "" && Read(text, 0).Tokens?
    ensures Legal(t, rest) && text == Spelling(t) + rest
  {
    var ts := Read(text, 0).ts;
    assert text[0..] == text;
    ReadSound(text, 0);
    t, rest := ts[0], Spellings(ts[1..]);
  }

  lemma DollarTokens(r: string, t: Token, rest: string)
    requires "$" + r == Spelling(t) + rest && Legal(t, rest)
    ensures t.Dollar? ==> r != "" && r[0] == '$'
    ensures t.Braced? ==> r == "{" + t.name + "}" + rest
    ensures t.Bare? ==> r == t.name + rest
    ensures !t.Plain?
  {
    var text := "$" + r;
    assert text[0] == '$' == Spelling(t)[0] && r == text[1..];
    match t
    case Plain(_) =>
    case Dollar => assert text[1] == '$';
    case Braced(n) => assert text == "$" + ("{" + n + "}" + rest);
    case Bare(n) => assert text == "$" + (n + rest);
  }

  lemma NamedValue(vars: seq<Variable>, n: string)
    requires NameChars(n) && |n| <= NAME_MAX && Lookup(vars, n).Some?
    ensures Name(n) && exists i :: First(vars, i, n)
  {
    LookupIs(vars, n);
    FirstOne(vars, n);
  }

  // After a dollar nothing else is accepted: another dollar, or one of the two.
  lemma DollarReads(vars: seq<Variable>, r: string) returns (n: string, rest: string)
    requires Expansion(vars, "$" + r).Some?
    ensures r != ""
    ensures r[0] == '$'
         || (&& Name(n) && (exists i :: First(vars, i, n))
             && (r == "{" + n + "}" + rest
                 || (r == n + rest && n[0] != '{' && (rest == "" || rest[0] in {'$', '\r', '\n'}))))
  {
    var t: Token;
    n := "";
    t, rest := StartsWithToken("$" + r);
    TokenExpands(vars, t, rest);
    DollarTokens(r, t, rest);
    if t.Braced? || t.Bare? {
      n := t.name;
      NamedValue(vars, n);
    }
  }

  lemma {:induction false} FirstOne(vars: seq<Variable>, name: string)
    requires exists i :: 0 <= i < |vars| && vars[i].name == name
    ensures exists i :: First(vars, i, name)
  {
    if vars[0].name == name {
      assert First(vars, 0, name);
    } else {
      var i :| 0 <= i < |vars| && vars[i].name == name;
      assert vars[1..][i-1].name == name;
      FirstOne(vars[1..], name);
      var k :| First(vars[1..], k, name);
      assert forall m :: 0 < m < |vars| ==> vars[m] == vars[1..][m-1];
      assert First(vars, k + 1, name);
    }
  }

  // ---- the searches of the loop ----------------------------------------------------------

  method FindVariable(vars: seq<Variable>, name: string) returns (hit: Option<string>)
    ensures hit == Lookup(vars, name)
    ensures hit.None? <==> forall i :: 0 <= i < |vars| ==> vars[i].name != name
    ensures forall i :: First(vars, i, name) ==> hit == Some(vars[i].value)
  {
    LookupIs(vars, name);
    for idx := 0 to |vars|
      invariant Lookup(vars, name) == Lookup(vars[idx..], name)
    {
      if |vars[idx].name| == |name| && vars[idx].name == name {
        return Some(vars[idx].value);
      }
      assert vars[idx..][1..] == vars[idx+1..];
    }
    return None;
  }

  method FindNameEnd(s: string, i: nat) returns (j: nat)
    requires i <= |s|
    ensures j == NameEnd(s, i)
  {
    j := i;
    while j < |s| && !EndsName(s[j]) && s[j] != '}'
      invariant i <= j <= |s| && NameEnd(s, j) == NameEnd(s, i)
    {
      j := j + 1;
    }
  }

  // One turn of the loop: the token at ss, or none if the text is malformed.
  method NextToken(s: string, ss: nat) returns (l: Lexeme)
    requires ss < |s|
    ensures l == Lex(s, ss)
  {
    if s[ss] != '$' {
      return Lexeme(Plain(s[ss]), ss + 1);
    }
    if ss + 1 < |s| && s[ss+1] == '$' {
      return Lexeme(Dollar, ss + 2);
    }
    var brace := if ss + 1 < |s| && s[ss+1] == '{' then 1 else 0;
    var vv := if brace == 1 then ss + 2 else ss + 1;
    var e := FindNameEnd(s, vv);
    var braced := brace == 1;
    if e < |s| && s[e] == '}' {
      brace := brace - 1;
    }
    if e == vv || brace != 0 {
      return Bad;
    }
    l := if braced then Lexeme(Braced(s[vv..e]), e + 1) else Lexeme(Bare(s[vv..e]), e);
  }

  method Append(dest: array<char>, d: nat, text: string) returns (d': nat)
    requires d + |text| <= dest.Length
    modifies dest
    ensures d' == d + |text| && dest[..d'] == old(dest[..d]) + text
  {
    forall i | 0 <= i < |text| {
      dest[d + i] := text[i];
    }
    d' := d + |text|;
  }

  // ja_replace_variable; a null destination is a null array.
  method ReplaceVariable(vars: seq<Variable>, src: CString, dest: array?<char>, destLen: int) returns (ok: bool)
    requires dest != null ==> destLen <= dest.Length
    modifies dest
    ensures ok <==> src.Text? && dest != null && destLen >= 1 && vars != []
                    && Expansion(vars, src.s).Some? && |Expansion(vars, src.s).value| <= destLen - 1
    ensures ok ==> var out := Expansion(vars, src.s).value; dest[..|out|+1] == out + [NUL]
    ensures src.Text? && dest != null ==> forall i, n ::
      First(vars, i, n) && Name(n) && (src.s == "${" + n + "}" || (src.s == "$" + n && n[0] != '{')) ==>
        (ok <==> |vars[i].value| < destLen) && (ok ==> dest[..|vars[i].value|+1] == vars[i].value + [NUL])
  {
    if src.Text? {
      forall i, n | First(vars, i, n) && Name(n) && (src.s == "${" + n + "}" || (src.s == "$" + n && n[0] != '{'))
        ensures vars != [] && Expansion(vars, src.s) == Some(vars[i].value)
      {
        WholeValue(vars, n, i);
      }
    }
    if src.Null? || dest == null || destLen < 1 || vars == [] {
      return false;
    }
    var s := src.s;
    var ss, dd: nat, dlen := 0, 0, destLen - 1;
    ghost var done: seq<Token> := [];
    while ss < |s|
      invariant ss <= |s| && dd + dlen == destLen - 1 && dlen >= 0
      invariant destLen <= dest.Length
      invariant Read(s, 0) == if Read(s, ss).Tokens? then Tokens(done + Read(s, ss).ts) else Unreadable
      invariant Meanings(vars, done) == Some(dest[..dd])
    {
      var l := NextToken(s, ss);
      if l.Bad? { return false; }
      ghost var rest := Read(s, l.next);
      if rest.Tokens? {
        Unfold(vars, done, l.token, rest.ts);
      }
      var text: string;
      match l.token {
        case Plain(c) => text := [c];
        case Dollar => text := "$";
        case _ =>
          if |l.token.name| > NAME_MAX { return false; }
          var hit := FindVariable(vars, l.token.name);
          if hit.None? { return false; }
          text := hit.value;
      }
      if |text| > dlen { return false; }
      MeaningsAppend(vars, done, [l.token]);
      assert Meanings(vars, [l.token]) == Some(text + "") && text + "" == text;
      dd := Append(dest, dd, text);
      dlen := dlen - |text|;
      done := done + [l.token];
      ss := l.next;
    }
    dest[dd] := NUL;
    ok := true;
    assert done + [] == done;
  }

  // The expansion of a whole text in terms of what is done, the next token and the rest.
  lemma Unfold(vars: seq<Variable>, done: seq<Token>, t: Token, rest: seq<Token>)
    ensures done + ([t] + rest) == done + [t] + rest
    ensures Meanings(vars, done + ([t] + rest)).Some? ==>
      && Meanings(vars, done).Some? && Meaning(vars, t).Some?
      && |Meanings(vars, done + ([t] + rest)).value| >= |Meanings(vars, done).value| + |Meaning(vars, t).value|
  {
    assert ([t] + rest)[1..] == rest;
    MeaningsAppend(vars, done, [t] + rest);
  }
}
