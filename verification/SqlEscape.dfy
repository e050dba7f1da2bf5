// Quoting text for a SQL literal (src/jalibs/jastr.c): a quote is doubled, a
// carriage return dropped, and the result cut to the buffer.
module SqlEscape {
  import opened Common

  function EscapeChar(c: char): string
  {
    if c == '\r' then "" else if c == '\'' then "''" else [c]
  }

  function Escape(s: string): string
  {
    if s == "" then "" else Escape(s[..|s|-1]) + EscapeChar(s[|s|-1])
  }

  function StripCR(s: string): string
  {
    if s == "" then "" else (if s[0] == '\r' then "" else [s[0]]) + StripCR(s[1..])
  }

  datatype Literal = Broken | Whole(s: string)

  // How SQL reads the inside of a literal: a quote must be followed by a quote.
  function Unescape(t: string): Literal
  {
    if t == "" then Whole("")
    else if t[0] != '\'' then Prefixed(t[0], Unescape(t[1..]))
    else if |t| == 1 || t[1] != '\'' then Broken
    else Prefixed('\'', Unescape(t[2..]))
  }

  function Prefixed(c: char, l: Literal): Literal
  {
    if l.Broken? then Broken else Whole([c] + l.s)
  }

  lemma {:induction false} EscapeFirst(s: string)
    requires s != ""
    ensures Escape(s) == EscapeChar(s[0]) + Escape(s[1..])
  {
    if |s| == 1 {
      assert Escape(s[..0]) == "" && Escape(s[1..]) == "";
    } else {
      var front := s[..|s|-1];
      EscapeFirst(front);
      assert s[1..][..|s|-2] == front[1..];
      var head, middle, last := EscapeChar(s[0]), Escape(front[1..]), EscapeChar(s[|s|-1]);
      assert Escape(s[1..]) == middle + last;
      assert (head + middle) + last == head + (middle + last);
    }
  }

  // SQL reads back the text without its carriage returns.
  lemma {:induction false} EscapeRoundTrip(s: string)
    ensures Unescape(Escape(s)) == Whole(StripCR(s))
  {
    if s != "" {
      EscapeFirst(s);
      EscapeRoundTrip(s[1..]);
      var rest := Escape(s[1..]);
      if s[0] == '\'' {
        assert ("''" + rest)[2..] == rest;
      } else if s[0] != '\r' {
        assert ([s[0]] + rest)[1..] == rest;
      } else {
        assert "" + rest == rest;
      }
    }
  }

  lemma EscapePrefixLength(s: string, i: nat, j: nat)
    requires i <= j <= |s|
    ensures |Escape(s[..i])| <= |Escape(s[..j])|
  {
    if i < j {
      assert s[..j][..j-1] == s[..j-1];
      EscapePrefixLength(s, i, j - 1);
    }
  }

  // ja_db_escape_string_len: the exact size of the result with its terminator.
  method EscapedLength(src: CString) returns (len: nat)
    ensures len == |Escape(Chars(src))| + 1
  {
    len := 1;
    var s := Chars(src);
    for i := 0 to |s|
      invariant len == |Escape(s[..i])| + 1
    {
      assert s[..i+1][..i] == s[..i];
      if s[i] == '\r' { continue; }
      if s[i] == '\'' { len := len + 1; }
      len := len + 1;
    }
    assert s[..|s|] == s;
  }

  // The result of a cut: the escape of the longest prefix that fits.
  ghost predicate LongestFit(s: string, k: nat, room: nat)
  {
    && k <= |s|
    && |Escape(s[..k])| <= room
    && forall j :: k < j <= |s| && |Escape(s[..j])| <= room ==> Escape(s[..j]) == Escape(s[..k])
  }

  lemma Stops(s: string, k: nat, room: nat)
    requires k < |s| && |Escape(s[..k])| <= room
    requires |Escape(s[..k])| == room || |Escape(s[..k+1])| > room
    ensures LongestFit(s, k, room)
  {
    forall j | k < j <= |s| && |Escape(s[..j])| <= room ensures Escape(s[..j]) == Escape(s[..k]) {
      SameLengthSame(s, k, j);
      EscapePrefixLength(s, k + 1, j);
    }
  }

  lemma SameLengthSame(s: string, k: nat, j: nat)
    requires k <= j <= |s|
    ensures |Escape(s[..j])| <= |Escape(s[..k])| ==> Escape(s[..j]) == Escape(s[..k])
  {
    if k < j {
      assert s[..j][..j-1] == s[..j-1];
      SameLengthSame(s, k, j - 1);
      EscapePrefixLength(s, k, j - 1);
    }
  }

  lemma EscapeNext(s: string, i: nat)
    requires i < |s|
    ensures Escape(s[..i+1]) == Escape(s[..i]) + EscapeChar(s[i])
  {
    assert s[..i+1][..i] == s[..i];
  }

  // out has been written at the start of a buffer that held was.
  ghost predicate Written(buf: seq<char>, was: seq<char>, out: string)
  {
    |out| <= |buf| == |was| && buf == out + was[|out|..]
  }

  method Put(dst: array<char>, ghost was: seq<char>, ghost out: string, c: char, d: nat)
    requires Written(dst[..], was, out) && d == |out| < dst.Length
    modifies dst
    ensures Written(dst[..], was, out + [c])
  {
    dst[d] := c;
  }

  // One character: dropped, doubled or copied, if it fits.
  method PutEscaped(dst: array<char>, ghost was: seq<char>, ghost out: string, c: char, d: nat, room: nat)
    returns (fits: bool, d': nat)
    requires Written(dst[..], was, out) && d == |out| && d + room < dst.Length
    modifies dst
    ensures fits <==> |EscapeChar(c)| <= room
    ensures fits ==> Written(dst[..], was, out + EscapeChar(c)) && d' == d + |EscapeChar(c)|
    ensures !fits ==> Written(dst[..], was, out) && d' == d
  {
    d' := d;
    if c == '\r' {
      assert out + EscapeChar(c) == out;
      return true, d;
    }
    if room == 0 || (c == '\'' && 2 > room) { return false, d; }
    ghost var written := out;
    if c == '\'' {
      Put(dst, was, out, '\'', d');
      written := out + "'";
      d' := d' + 1;
    }
    Put(dst, was, written, c, d');
    d' := d' + 1;
    assert out + EscapeChar(c) == written + [c];
    fits := true;
  }

  // ja_db_escape_string: fills dst, at most len characters with the terminator.
  method EscapeInto(src: CString, dst: array<char>, len: nat) returns (ghost k: nat)
    requires 0 < len <= dst.Length
    modifies dst
    ensures LongestFit(Chars(src), k, len - 1)
    ensures Written(dst[..], old(dst[..]), Escape(Chars(src)[..k]) + [NUL])
  {
    var s := Chars(src);
    ghost var was := dst[..];
    var room := len - 1;
    var d: nat, i: nat := 0, 0;
    while i < |s| && 0 < room
      invariant i <= |s| && d + room == len - 1 && room >= 0
      invariant d == |Escape(s[..i])| && Written(dst[..], was, Escape(s[..i]))
    {
      EscapeNext(s, i);
      var fits, next := PutEscaped(dst, was, Escape(s[..i]), s[i], d, room);
      if !fits { break; }
      room := room - (next - d);
      d := next;
      i := i + 1;
    }
    k := i;
    if i < |s| {
      EscapeNext(s, i);
      Stops(s, i, len - 1);
    }
    Put(dst, was, Escape(s[..k]), NUL, d);
  }

  // ja_db_dyn_escape_string
  method DynEscape(src: CString) returns (dst: array<char>)
    ensures fresh(dst) && dst[..] == Escape(Chars(src)) + [NUL]
  {
    var len := EscapedLength(src);
    dst := new char[len](_ => NUL);
    ghost var k := EscapeInto(src, dst, len);
    assert Chars(src)[..|Chars(src)|] == Chars(src);
    if k < |Chars(src)| {
      assert Escape(Chars(src)[..|Chars(src)|]) == Escape(Chars(src)[..k]);
    }
  }
}
